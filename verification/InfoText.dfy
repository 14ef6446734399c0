/** The configuration text in plain terms: what is printed, character by character, and what any text is
    read as. */
module InfoText {
  import opened Results
  import opened CMachine
  import opened Decimal
  import opened TextScan
  import opened InfoString

  // ---- what is printed ----

  /** The format string of info_to_str. */
  lemma PrintForm(info: Info)
    ensures Print(info)
         == "under_vol=" + Unsigned(info.value % TWO_32) + ";under_info={"
            + (match info.under case NoInfo => "" case Opaque(t) => t case Nested(n) => Print(n))
            + "};path=" + info.path + ";level=" + Signed(info.level) + ";format=" + info.format
  {
    Assembled(Unsigned(info.value % TWO_32), UnderText(info), info.path, Signed(info.level), info.format);
  }

  lemma Assembled(value: string, under: string, path: string, level: string, format: string)
    ensures "under_vol=" + value + ";under_info=" + "{" + under
            + Join("}", "path=" + path, "level=" + level, "format=" + format)
         == "under_vol=" + value + ";under_info={" + under + "};path=" + path + ";level=" + level + ";format=" + format
  {
    TailForm(path, level, format);
    var front := "under_vol=" + value;
    assert front + ";under_info=" + "{" == front + ";under_info={";
    Spliced(front + ";under_info={" + under, path, level, format);
  }

  lemma Spliced(front: string, path: string, level: string, format: string)
    ensures front + ("};path=" + path + ";level=" + level + ";format=" + format)
         == front + "};path=" + path + ";level=" + level + ";format=" + format
  {
  }

  lemma TailForm(path: string, level: string, format: string)
    ensures Join("}", "path=" + path, "level=" + level, "format=" + format)
         == "};path=" + path + ";level=" + level + ";format=" + format
  {
  }

  /** Decimal: the last digit is the remainder, the others are those of the quotient. */
  lemma LastDigit(n: nat)
    ensures var s := Unsigned(n);
            && s[|s| - 1] as int == '0' as int + n % 10
            && (n >= 10 ==> s[..|s| - 1] == Unsigned(n / 10))
            && (n < 10 ==> |s| == 1)
    ensures Signed(n) == Unsigned(n) && (n > 0 ==> Signed(0 - n) == "-" + Unsigned(n))
  {
    DigitIs(n % 10);
    if n >= 10 { assert Unsigned(n) == Unsigned(n / 10) + [Digit(n % 10)]; }
  }

  lemma DigitIs(d: nat)
    requires d < 10
    ensures Digit(d) as int == '0' as int + d
  {
  }

  // ---- what is read ----

  /** White space, as isspace has it. */
  lemma Spaces(c: char)
    ensures IsSpace(c) <==> c in " \t\n\r" || c == '\U{B}' || c == '\U{C}'
  {
  }

  /** A word ends at white space; white space in front is skipped. */
  lemma WordBetween(spaces: string, word: string, rest: string)
    requires forall j :: 0 <= j < |spaces| ==> IsSpace(spaces[j])
    requires word != [] && forall j :: 0 <= j < |word| ==> !IsSpace(word[j])
    requires rest == [] || IsSpace(rest[0])
    ensures Word(spaces + word + rest) == word
  {
    SkipsSpaces(spaces, word + rest);
    assert spaces + word + rest == spaces + (word + rest);
    var t := word + rest;
    assert forall j :: 0 <= j < |word| ==> t[j] == word[j];
    assert |word| < |t| ==> t[|word|] == rest[0];
    assert t[..|word|] == word;
  }

  lemma {:induction false} SkipsSpaces(spaces: string, text: string)
    requires forall j :: 0 <= j < |spaces| ==> IsSpace(spaces[j])
    requires text == [] || !IsSpace(text[0])
    ensures SkipSpaces(spaces + text) == text
  {
    if spaces == [] {
      assert spaces + text == text;
    } else {
      SkipsSpaces(spaces[1..], text);
      assert (spaces + text)[0] == spaces[0] && (spaces + text)[1..] == spaces[1..] + text;
    }
  }

  /** Separators in front of a text and between tokens are skipped. */
  lemma SeparatorsSkipped(text: string)
    ensures Tokens(";" + text) == Tokens(text)
  {
    assert (";" + text)[1..] == text;
  }

  /** provenance_file_setup on any text: it must have at most 99 characters and exactly four tokens, and what
      stands behind "path=" and "format=" must fit 64 bytes; what does not start like that is left empty. */
  lemma SetupReads(text: string)
    ensures var toks := Tokens(text);
            FileSetup(text).Done? <==>
              && |text| <= 99 && |toks| == 4
              && ("path=" <= toks[1] ==> |Word(toks[1][5..])| <= 63)
              && ("format=" <= toks[3] ==> |Word(toks[3][7..])| <= 63)
    ensures FileSetup(text).Done? ==>
              var toks, r := Tokens(text), FileSetup(text).value;
              && r.path == (if "path=" <= toks[1] then Word(toks[1][5..]) else "")
              && r.format == (if "format=" <= toks[3] then Word(toks[3][7..]) else "")
              && (!("level=" <= toks[2]) ==> r.level == 0)
              && ("level=" <= toks[2] ==> r.level == ScanInt(toks[2][6..]))
  {
    var toks := Tokens(text);
    if |toks| == 4 {
      PathRead(toks[1]);
      FormatRead(toks[3]);
      FromWords(toks, ScanWord("path=", toks[1]), ScanWord("format=", toks[3]));
      SetupOfFour(text);
    }
  }

  lemma SetupOfFour(text: string)
    requires |Tokens(text)| == 4
    ensures FileSetup(text) == if |text| <= 99 then FromTokens(Tokens(text)) else Fault
  {
  }

  lemma PathRead(token: string)
    ensures ScanWord("path=", token) == if !("path=" <= token) then Done("")
                                        else if |Word(token[5..])| <= 63 then Done(Word(token[5..])) else Fault
  {
  }

  lemma FormatRead(token: string)
    ensures ScanWord("format=", token) == if !("format=" <= token) then Done("")
                                        else if |Word(token[7..])| <= 63 then Done(Word(token[7..])) else Fault
  {
  }

  predicate Digits(s: string) {
    s != [] && forall i :: 0 <= i < |s| ==> '0' <= s[i] <= '9'
  }

  /** %d: a number in an int is read as it is, one too large for a long as -1, one too small as 0; a text
      without digits leaves 0. */
  lemma NumberRead(spaces: string, sign: string, digits: string, rest: string)
    requires forall j :: 0 <= j < |spaces| ==> IsSpace(spaces[j])
    requires sign in ["", "+", "-"] && Digits(digits) && (rest == [] || !('0' <= rest[0] <= '9'))
    ensures var v, i := ValueOf(digits), ScanInt(spaces + sign + digits + rest);
            && (v < 0x8000_0000 ==> i == if sign == "-" then 0 - v else v)
            && (sign != "-" && v >= 0x8000_0000_0000_0000 ==> i == -1)
            && (sign == "-" && v >= 0x8000_0000_0000_0000 ==> i == 0)
  {
    NumberStored(spaces, sign, digits, rest);
    StoredIs(sign == "-", ValueOf(digits));
  }

  lemma NumberStored(spaces: string, sign: string, digits: string, rest: string)
    requires forall j :: 0 <= j < |spaces| ==> IsSpace(spaces[j])
    requires sign in ["", "+", "-"] && Digits(digits) && (rest == [] || !('0' <= rest[0] <= '9'))
    ensures ScanInt(spaces + sign + digits + rest) == StoredInt(sign == "-", ValueOf(digits))
  {
    SignRead(sign, digits, rest);
    SpacesBefore(spaces, sign + digits + rest);
    LastThree(spaces, sign, digits, rest);
    DigitsRead(digits, rest);
  }

  lemma LastThree(a: string, b: string, c: string, d: string)
    ensures a + b + c + d == a + (b + c + d)
  {
  }

  lemma SpacesBefore(spaces: string, text: string)
    requires forall j :: 0 <= j < |spaces| ==> IsSpace(spaces[j])
    requires text != [] && !IsSpace(text[0])
    ensures ScanInt(spaces + text) == ScanInt(text)
  {
    SkipsSpaces(spaces, text);
    assert SkipSpaces(text) == text;
  }

  lemma SignRead(sign: string, digits: string, rest: string)
    requires sign in ["", "+", "-"] && Digits(digits)
    ensures var text := sign + digits + rest;
            && text != [] && !IsSpace(text[0])
            && ScanInt(text) == ScanDigits(digits + rest, sign == "-")
  {
    var text := sign + digits + rest;
    if sign == "" {
      assert text == digits + rest && text[0] == digits[0];
    } else {
      assert text[1..] == digits + rest && text[0] == sign[0];
    }
    assert SkipSpaces(text) == text;
  }

  lemma DigitsRead(digits: string, rest: string)
    requires Digits(digits) && (rest == [] || !('0' <= rest[0] <= '9'))
    ensures forall negative :: ScanDigits(digits + rest, negative) == StoredInt(negative, ValueOf(digits))
  {
    RunOf(digits, rest);
    assert (digits + rest)[..|digits|] == digits;
  }

  lemma StoredIs(negative: bool, v: nat)
    ensures v < 0x8000_0000 ==> StoredInt(negative, v) == if negative then 0 - v else v
    ensures !negative && v >= 0x8000_0000_0000_0000 ==> StoredInt(negative, v) == -1
    ensures negative && v >= 0x8000_0000_0000_0000 ==> StoredInt(negative, v) == 0
  {
    if v < 0x8000_0000 {
      WordBackToInt(if negative then 0 - v else v);
    } else if v >= 0x8000_0000_0000_0000 {
      Extremes();
    }
  }

  lemma Extremes()
    ensures ToInt32(ToUlong(TWO_64 / 2 - 1)) == -1
    ensures ToInt32(ToUlong(-(TWO_64 / 2))) == 0
  {
    assert ToUlong(-(TWO_64 / 2)) == TWO_64 / 2;
  }

  lemma NoNumberRead(text: string)
    requires SkipSpaces(text) == [] || (SkipSpaces(text)[0] !in "+-" && !IsDigit(SkipSpaces(text)[0]))
    ensures ScanInt(text) == 0
  {
  }

  /** The number of the connector below: read as unsigned, one too large for 64 bits as -1; any other text
      than "under_vol=" and a digit is refused. */
  lemma ValueRead(digits: string, rest: string)
    requires Digits(digits) && (rest == [] || !('0' <= rest[0] <= '9'))
    ensures var v, value := ValueOf(digits), ScanValue("under_vol=" + digits + rest);
            && value.Done?
            && (v < 0x8000_0000 ==> value.value == v)
            && (0x8000_0000 <= v < 0x1_0000_0000 ==> value.value == v - 0x1_0000_0000)
            && (v >= 0x1_0000_0000_0000_0000 ==> value.value == -1)
  {
    var text := "under_vol=" + digits + rest;
    assert text[10..] == digits + rest;
    assert text[..10] == "under_vol=";
    RunOf(digits, rest);
    assert (digits + rest)[..|digits|] == digits;
    ValueIs(ValueOf(digits));
  }

  lemma ValueIs(v: nat)
    ensures v < 0x8000_0000 ==> ToInt32(Clamp(v)) == v
    ensures 0x8000_0000 <= v < 0x1_0000_0000 ==> ToInt32(Clamp(v)) == v - 0x1_0000_0000
    ensures v >= 0x1_0000_0000_0000_0000 ==> ToInt32(Clamp(v)) == -1
  {
  }

  lemma ValueRefused(text: string)
    ensures ScanValue(text).Fault? <==>
              !("under_vol=" <= text) || |text| == 10 || !('0' <= text[10] <= '9')
  {
  }

  /** A connector that is not a provenance connector gets its text and the uninitialised byte behind it. */
  lemma OpaqueGetsStray(info: Info, t: string, stray: string, trailing: string)
    requires info.under == Opaque(t) && t != [] && WellFormed(info) && stray != [] && stray[0] != NUL
    requires SettingsSurvive(info.path, info.level, info.format, trailing)
    ensures Parse(Print(info) + trailing, stray) == Done(info.(under := Opaque(t + [stray[0]])))
  {
    var after := PrintIsBraced(info, trailing);
    ValueOfPrinted(info, trailing);
    StemHas(info.value, '{');
    ParseBraced(Stem(info.value), t, after, stray, info.(under := Opaque(t + [stray[0]])));
    SettingsBack(info.path, info.level, info.format, trailing);
  }

  /** Each level of nesting has its own uninitialised byte. */
  lemma NextLevelGetsNext(outer: Info, inner: Info, t: string, c: char, d: char)
    requires WellFormed(outer) && outer.under == Nested(inner) && inner.under == Opaque(t) && t != [] && d != NUL
    requires SettingsSurvive(outer.path, outer.level, outer.format, "")
    requires SettingsSurvive(inner.path, inner.level, inner.format, if c == NUL then "" else [c])
    ensures Parse(Print(outer), [c, d]) == Done(outer.(under := Nested(inner.(under := Opaque(t + [d])))))
  {
    var behind := if c == NUL then "" else [c];
    OpaqueGetsStray(inner, t, [d], behind);
    var read := outer.(under := Nested(inner.(under := Opaque(t + [d]))));
    NestedReads(outer, inner, [c, d], read.under);
    var after := PrintIsBraced(outer, "");
    assert Print(outer) + "" == Print(outer);
    ValueOfPrinted(outer, "");
    StemHas(outer.value, '{');
    ParseBraced(Stem(outer.value), Print(inner), after, [c, d], read);
    SettingsBack(outer.path, outer.level, outer.format, "");
  }

  lemma NestedReads(outer: Info, inner: Info, stray: string, under: Under)
    requires outer.value == PROVNC_VALUE && |stray| == 2 && under.Nested?
    requires Parse(Print(inner) + (if stray[0] == NUL then "" else [stray[0]]), [stray[1]]) == Done(under.info)
    ensures ParseUnder(outer.value, Print(inner), stray) == Done(under)
  {
    assert Deeper(stray) == [stray[1]];
    assert |Print(inner)| >= |Stem(inner.value)| > 0;
  }
}

/** H5VL_provenance_info_to_str and H5VL_provenance_str_to_info: connector information as text, for
    stacks of connectors of any depth. */
module InfoString {
  import opened Results
  import opened CMachine
  import opened Decimal
  import opened TextScan

  type Int32 = i: int | -TWO_31 <= i < TWO_31

  const NUL := '\0'

  /** The value of the provenance connector itself. */
  const PROVNC_VALUE: Int32 := 509

  /** H5VL_provenance_info_t: `value` and `under` are those of the connector below. */
  datatype Info = Info(value: Int32, under: Under, path: string, level: Int32, format: string)

  /** Information of the connector below: none, text only that connector understands, or another
      provenance connector. */
  datatype Under = NoInfo | Opaque(text: string) | Nested(info: Info)

  /** Only a provenance connector has provenance information. */
  predicate WellFormed(info: Info) {
    match info.under
    case NoInfo => true
    case Opaque(_) => info.value != PROVNC_VALUE
    case Nested(n) => info.value == PROVNC_VALUE && WellFormed(n)
  }

  /** Conversion between int and unsigned int. */
  function ToUnsigned(i: Int32): nat {
    i % TWO_32
  }

  function ToInt32(u: nat): Int32 {
    LowInt(u)
  }

  // ---- printing ----

  function Stem(value: Int32): string {
    "under_vol=" + Unsigned(ToUnsigned(value)) + ";under_info="
  }

  function Tail(path: string, level: Int32, format: string): string {
    Join("}", "path=" + path, "level=" + Signed(level), "format=" + format)
  }

  function Print(info: Info): string
    decreases info, 1
  {
    Stem(info.value) + "{" + UnderText(info) + Tail(info.path, info.level, info.format)
  }

  function UnderText(info: Info): string
    decreases info, 0
  {
    match info.under case NoInfo => "" case Opaque(t) => t case Nested(n) => Print(n)
  }

  /** The size of the allocation that info_to_str prints into. */
  function Allocated(info: Info): nat {
    64 + |UnderText(info)| + |info.path| + |info.format|
  }

  /** The text and its NUL fit the allocation if and only if the two numerals have at most 18
      characters. */
  lemma PrintFitsIff(info: Info)
    ensures |Print(info)| + 1 <= Allocated(info)
            <==> |Unsigned(ToUnsigned(info.value))| + |Signed(info.level)| <= 18
  {
    assert |Print(info)| == |Stem(info.value)| + 1 + |UnderText(info)| + |Tail(info.path, info.level, info.format)|;
  }

  /** That is so for every level of the enumeration. */
  lemma PrintFits(info: Info)
    requires 0 <= info.level <= 6
    ensures |Print(info)| + 1 <= Allocated(info)
  {
    assert PowerOf10(10) == 10000000000 by {
      assert PowerOf10(5) == 100000;
    }
    NumeralLength(ToUnsigned(info.value), 10, 10000000000);
    PrintFitsIff(info);
  }

  // ---- parsing ----

  /** sscanf(s, "under_vol=%u;"): a text that does not start like this leaves the value unset. */
  function ScanValue(s: string): Result<Int32> {
    if !("under_vol=" <= s) then Fault
    else
      var digits := s[10..];
      var n := DigitRun(digits);
      if n == 0 then Fault else Done(ToInt32(Clamp(ValueOf(digits[..n]))))
  }

  /** What strtoul makes of a value too large for it. */
  function Clamp(n: nat): nat {
    if n < TWO_64 then n else TWO_64 - 1
  }

  /** What strtol makes of a value too large or too small for it. */
  function ClampLong(v: int): int {
    if v < -(TWO_64 / 2) then -(TWO_64 / 2) else if v >= TWO_64 / 2 then TWO_64 / 2 - 1 else v
  }

  /** sscanf(token, "path=%s", out) and its like into a zeroed buffer of 64 characters; a missing
      token or an overflow is a fault, a text that does not match leaves the buffer empty. */
  function ScanWord(prefix: string, token: string): Result<string> {
    if !(prefix <= token) then Done("")
    else
      var w := Word(token[|prefix|..]);
      if |w| <= 63 then Done(w) else Fault
  }

  /** sscanf(token, "level=%d", out) into a zeroed int. */
  function ScanLevel(token: string): Int32 {
    if "level=" <= token then ScanInt(token[6..]) else 0
  }

  /** %d into a zeroed int. */
  function ScanInt(text: string): Int32 {
    var s := SkipSpaces(text);
    if s == [] then 0
    else if s[0] == '-' then ScanDigits(s[1..], true)
    else if s[0] == '+' then ScanDigits(s[1..], false)
    else ScanDigits(s, false)
  }

  function ScanDigits(digits: string, negative: bool): Int32 {
    var n := DigitRun(digits);
    if n == 0 then 0 else StoredInt(negative, ValueOf(digits[..n]))
  }

  /** The int that strtol's result is cut down to. */
  function StoredInt(negative: bool, v: nat): Int32 {
    ToInt32(ToUlong(ClampLong(if negative then 0 - v else v)))
  }

  datatype Settings = Settings(path: string, level: Int32, format: string)

  /** provenance_file_setup: a copy of at most 99 characters, at most four tokens. */
  function FileSetup(s: string): Result<Settings> {
    if |s| + 1 > 100 then Fault else FromTokens(Tokens(s))
  }

  function FromTokens(toks: seq<string>): Result<Settings> {
    if |toks| != 4 then Fault
    else
      var path :- ScanWord("path=", toks[1]);
      var format :- ScanWord("format=", toks[3]);
      Done(Settings(path, ScanLevel(toks[2]), format))
  }

  /** The connector below is given the text between the braces and then the byte that the copy leaves
      uninitialised before it terminates the string one place too far: nothing more if it is NUL. */
  function Stray(stray: string): (t: string)
    ensures |t| <= 1 && NUL !in t
  {
    if stray == [] || stray[0] == NUL then [] else [stray[0]]
  }

  function Deeper(stray: string): string {
    if stray == [] then [] else stray[1..]
  }

  /** str_to_info. `stray` holds the uninitialised byte of each level of nesting, NUL when it runs out. */
  function Parse(s: string, stray: string): Result<Info>
    decreases |s|, 0
  {
    var start, end := First(s, '{'), Last(s, '}');
    if start == |s| || end == |s| || end <= start then Fault
    else
      var value :- ScanValue(s);
      var under :- ParseUnder(value, s[start + 1..end], stray);
      var settings :- FileSetup(s[end..]);
      Done(Info(value, under, settings.path, settings.level, settings.format))
  }

  /** The text between the braces goes to the connector below, which is a provenance connector again
      or one whose text is taken as it is. */
  function ParseUnder(value: Int32, inner: string, stray: string): Result<Under>
    decreases |inner| + 1, 1
  {
    if inner == [] then Done(NoInfo)
    else if value != PROVNC_VALUE then Done(Opaque(inner + Stray(stray)))
    else
      var n :- Parse(inner + Stray(stray), Deeper(stray));
      Done(Nested(n))
  }

  // ---- the numerals ----

  lemma SignedBack(i: Int32)
    ensures ToInt32(ToUnsigned(i)) == i
  {
  }

  lemma ValueBack(value: Int32, rest: string)
    ensures ScanValue(Stem(value) + rest) == Done(value)
  {
    var s := Stem(value) + rest;
    var u := Unsigned(ToUnsigned(value));
    assert s == "under_vol=" + u + (";under_info=" + rest);
    assert s[10..] == u + (";under_info=" + rest);
    assert (";under_info=" + rest)[0] == ';';
    RunOfNumeral(ToUnsigned(value), ";under_info=" + rest);
    assert s[10..][..|u|] == u;
    ReadsBack(ToUnsigned(value));
    SignedBack(value);
  }

  lemma LevelBack(level: Int32)
    ensures ScanLevel("level=" + Signed(level)) == level
  {
    var token := "level=" + Signed(level);
    assert token[6..] == Signed(level);
    SignedScan(level);
  }

  lemma SignedScan(level: Int32)
    ensures ScanInt(Signed(level)) == level
  {
    LevelOf(level);
    if level < 0 {
      NegativeScan(0 - level as int);
    } else {
      PlainScan(level as int);
    }
  }

  lemma PlainScan(v: nat)
    ensures ScanInt(Unsigned(v)) == StoredInt(false, v)
  {
    DigitsBack(v, false);
    NoSign(Unsigned(v));
  }

  lemma NoSign(digits: string)
    requires digits != [] && IsDigit(digits[0])
    ensures ScanInt(digits) == ScanDigits(digits, false)
  {
    assert SkipSpaces(digits) == digits;
  }

  lemma NegativeScan(v: nat)
    ensures ScanInt("-" + Unsigned(v)) == StoredInt(true, v)
  {
    var s := "-" + Unsigned(v);
    assert SkipSpaces(s) == s;
    assert s[1..] == Unsigned(v);
    DigitsBack(v, true);
  }

  lemma DigitsBack(v: nat, negative: bool)
    ensures ScanDigits(Unsigned(v), negative) == StoredInt(negative, v)
  {
    var digits := Unsigned(v);
    assert digits + [] == digits;
    RunOfNumeral(v, []);
    ReadsBack(v);
    assert digits[..|digits|] == digits;
  }

  lemma LevelOf(level: Int32)
    ensures StoredInt(level < 0, if level < 0 then 0 - level as int else level as int) == level
  {
    assert ClampLong(level) == level;
    WordBackToInt(level);
  }

  lemma WordBackToInt(i: Int32)
    ensures ToInt32(ToUlong(i)) == i
  {
    assert ToUlong(i) == if i < 0 then i + TWO_64 else i as int;
  }

  lemma SignedHas(i: int, c: char)
    requires !IsDigit(c) && c != '-'
    ensures c !in Signed(i)
  {
  }

  // ---- the settings after the last brace ----

  /** A setting that tokenizing and scanning leave whole. */
  predicate Plain(s: string) {
    forall i :: 0 <= i < |s| ==> s[i] != ';' && !IsSpace(s[i])
  }

  /** One that is not taken for the end of the nested text either. */
  predicate Clean(s: string) {
    Plain(s) && '}' !in s
  }

  /** What may follow the text without being taken for part of the format. */
  predicate Harmless(trailing: string) {
    trailing == [] || (|trailing| == 1 && (trailing[0] == ';' || IsSpace(trailing[0])))
  }

  /** The settings are plain and fit the fixed buffers, with what follows them. */
  predicate SettingsFit(path: string, level: Int32, format: string, trailing: string) {
    && Plain(path) && Plain(format) && |path| <= 63 && |format| <= 63
    && Harmless(trailing) && |Tail(path, level, format)| + |trailing| <= 99
  }

  /** The settings survive: they fit and are clean. */
  predicate SettingsSurvive(path: string, level: Int32, format: string, trailing: string) {
    SettingsFit(path, level, format, trailing) && Clean(path) && Clean(format)
  }

  lemma TailTokens(path: string, level: Int32, format: string, trailing: string)
    requires Plain(path) && Plain(format) && (trailing == ";" || ';' !in trailing)
    ensures Tokens(Tail(path, level, format) + trailing)
         == ["}", "path=" + path, "level=" + Signed(level),
             "format=" + format + (if trailing == ";" then "" else trailing)]
  {
    SignedHas(level, ';');
    FourTokens("path=" + path, "level=" + Signed(level), "format=" + format, trailing);
  }

  lemma FourTokens(b: string, c: string, d: string, trailing: string)
    requires IsToken(b) && IsToken(c) && IsToken(d) && (trailing == ";" || ';' !in trailing)
    ensures Tokens(Join("}", b, c, d) + trailing) == ["}", b, c, d + (if trailing == ";" then "" else trailing)]
  {
    JoinAppend("}", b, c, d, trailing);
    if trailing == ";" {
      JoinedTokensCut("}", b, c, d);
      assert d + "" == d;
    } else {
      JoinedTokens("}", b, c, d + trailing);
    }
  }

  lemma WordBack(prefix: string, word: string, spaces: string)
    requires forall j :: 0 <= j < |word| ==> !IsSpace(word[j])
    requires forall j :: 0 <= j < |spaces| ==> IsSpace(spaces[j])
    ensures ScanWord(prefix, prefix + word + spaces) == if |word| <= 63 then Done(word) else Fault
  {
    var token := prefix + word + spaces;
    assert token[|prefix|..] == word + spaces;
    WordOf(word, spaces);
  }

  /** Settings that fit are read back. */
  lemma SettingsBack(path: string, level: Int32, format: string, trailing: string)
    requires SettingsFit(path, level, format, trailing)
    ensures FileSetup(Tail(path, level, format) + trailing) == Done(Settings(path, level, format))
  {
    TailTokens(path, level, format, trailing);
    FromFour(path, level, format, if trailing == ";" then "" else trailing);
  }

  lemma FromFour(path: string, level: Int32, format: string, spaces: string)
    requires Plain(path) && Plain(format) && |path| <= 63 && |format| <= 63
    requires forall j :: 0 <= j < |spaces| ==> IsSpace(spaces[j])
    ensures FromTokens(["}", "path=" + path, "level=" + Signed(level), "format=" + format + spaces])
         == Done(Settings(path, level, format))
  {
    PathBack(path);
    LevelBack(level);
    WordBack("format=", format, spaces);
    FromWords(["}", "path=" + path, "level=" + Signed(level), "format=" + format + spaces], Done(path), Done(format));
  }

  lemma FromWords(toks: seq<string>, path: Result<string>, format: Result<string>)
    requires |toks| == 4 && ScanWord("path=", toks[1]) == path && ScanWord("format=", toks[3]) == format
    ensures FromTokens(toks) == if path.Done? && format.Done?
                                then Done(Settings(path.value, ScanLevel(toks[2]), format.value)) else Fault
  {
  }

  lemma PathBack(path: string)
    requires Plain(path)
    ensures ScanWord("path=", "path=" + path) == if |path| <= 63 then Done(path) else Fault
  {
    WordBack("path=", path, "");
    assert "path=" + path + "" == "path=" + path;
  }

  lemma ScannedIsPlain(prefix: string, token: string)
    requires ';' !in token && ScanWord(prefix, token).Done?
    ensures Plain(ScanWord(prefix, token).value)
  {
    if prefix <= token { WordIsPart(token[|prefix|..], ';'); }
  }

  /** Only plain settings are read from any text. */
  lemma ReadIsPlain(s: string)
    requires FileSetup(s).Done?
    ensures Plain(FileSetup(s).value.path) && Plain(FileSetup(s).value.format)
  {
    var toks := Tokens(s);
    NoSeparators(s);
    ScannedIsPlain("path=", toks[1]);
    ScannedIsPlain("format=", toks[3]);
  }

  lemma ScannedIsClean(prefix: string, token: string)
    requires '}' !in token && ';' !in token && ScanWord(prefix, token).Done?
    ensures Clean(ScanWord(prefix, token).value)
  {
    ScannedIsPlain(prefix, token);
    if prefix <= token { WordIsPart(token[|prefix|..], '}'); }
  }

  lemma ReadIsClean(s: string)
    requires s != [] && s[0] == '}' && '}' !in s[1..] && FileSetup(s).Done?
    ensures var r := FileSetup(s).value;
            Clean(r.path) && Clean(r.format)
  {
    var toks := Tokens(s);
    TokensAfterBrace(s);
    ScannedIsClean("path=", toks[1]);
    ScannedIsClean("format=", toks[3]);
  }

  /** Only the first token can have a brace. */
  lemma TokensAfterBrace(s: string)
    requires s != [] && s[0] == '}' && '}' !in s[1..]
    ensures forall i :: 1 <= i < |Tokens(s)| ==> '}' !in Tokens(s)[i] && ';' !in Tokens(s)[i]
  {
    var n := First(s, ';');
    assert '}' !in s[n..];
    TokensAreParts(s[n..], '}');
    forall i | 1 <= i < |Tokens(s)| ensures '}' !in Tokens(s)[i] && ';' !in Tokens(s)[i] {
      assert Tokens(s)[i] == Tokens(s[n..])[i - 1];
    }
  }

  // ---- the whole text ----

  lemma StemHas(value: Int32, c: char)
    requires c == '{' || c == '}'
    ensures c !in Stem(value)
  {
  }

  /** The settings start with the closing brace and have no other. */
  lemma TailIsBrace(path: string, level: Int32, format: string) returns (after: string)
    requires '}' !in path && '}' !in format
    ensures Tail(path, level, format) == "}" + after && '}' !in after
  {
    SignedHas(level, '}');
    after := ";" + ("path=" + path + ";" + ("level=" + Signed(level) + ";" + ("format=" + format)));
  }

  lemma ValueOfPrinted(info: Info, trailing: string)
    ensures ScanValue(Print(info) + trailing) == Done(info.value)
  {
    var stem, rest := Stem(info.value), "{" + UnderText(info) + Tail(info.path, info.level, info.format) + trailing;
    ValueBack(info.value, rest);
    Regroup(stem, "{", UnderText(info), Tail(info.path, info.level, info.format), trailing);
  }

  lemma Regroup(a: string, b: string, c: string, d: string, e: string)
    ensures a + b + c + d + e == a + (b + c + d + e)
  {
  }

  /** A text with one opening brace in front and one closing brace behind. */
  function Braced(stem: string, u: string, after: string): string {
    stem + "{" + u + "}" + after
  }

  lemma Braces(stem: string, u: string, after: string)
    requires '{' !in stem && '}' !in after
    ensures var s, open := Braced(stem, u, after), |stem|;
            && First(s, '{') == open && Last(s, '}') == open + 1 + |u| < |s|
            && s[open + 1..open + 1 + |u|] == u && s[open + 1 + |u|..] == "}" + after
  {
    var s := Braced(stem, u, after);
    assert s == stem + ['{'] + (u + "}" + after);
    FirstAt(stem, '{', u + "}" + after);
    LastAt(stem + "{" + u, '}', after);
  }

  /** A printed text is braced, and the braces that the parser looks for are its outer ones. */
  lemma PrintIsBraced(info: Info, trailing: string) returns (after: string)
    requires '}' !in info.path && '}' !in info.format && '}' !in trailing
    ensures Print(info) + trailing == Braced(Stem(info.value), UnderText(info), after)
    ensures Tail(info.path, info.level, info.format) + trailing == "}" + after && '}' !in after
  {
    var behind := TailIsBrace(info.path, info.level, info.format);
    after := behind + trailing;
    Regrouped(Stem(info.value), UnderText(info), Tail(info.path, info.level, info.format), behind, trailing);
  }

  lemma Regrouped(stem: string, u: string, tail: string, behind: string, trailing: string)
    requires tail == "}" + behind
    ensures stem + "{" + u + tail + trailing == Braced(stem, u, behind + trailing)
    ensures tail + trailing == "}" + (behind + trailing)
  {
  }

  // ---- the round trip ----

  /** What the round trip needs at every level of the stack: settings that survive, and an
      uninitialised byte that the level below either does not get or does not mind. */
  predicate Survives(info: Info, stray: string, trailing: string) {
    && SettingsSurvive(info.path, info.level, info.format, trailing)
    && match info.under
       case NoInfo => true
       case Opaque(t) => t != [] && Stray(stray) == []
       case Nested(n) => Survives(n, Deeper(stray), Stray(stray))
  }

  /** Parsing a printed text comes down to its parts. */
  lemma ParsePrinted(info: Info, stray: string, trailing: string)
    requires '}' !in info.path && '}' !in info.format && '}' !in trailing
    ensures var under := ParseUnder(info.value, UnderText(info), stray);
            var settings := FileSetup(Tail(info.path, info.level, info.format) + trailing);
            Parse(Print(info) + trailing, stray) == Done(info)
            <==> under == Done(info.under) && settings == Done(Settings(info.path, info.level, info.format))
  {
    var after := PrintIsBraced(info, trailing);
    ValueOfPrinted(info, trailing);
    StemHas(info.value, '{');
    ParseBraced(Stem(info.value), UnderText(info), after, stray, info);
  }

  lemma ParseBraced(stem: string, u: string, after: string, stray: string, info: Info)
    requires '{' !in stem && '}' !in after && ScanValue(Braced(stem, u, after)) == Done(info.value)
    ensures Parse(Braced(stem, u, after), stray) == Done(info)
            <==> && ParseUnder(info.value, u, stray) == Done(info.under)
                 && FileSetup("}" + after) == Done(Settings(info.path, info.level, info.format))
  {
    Braces(stem, u, after);
    ParseParts(Braced(stem, u, after), stray, u, "}" + after, info);
  }

  lemma ParseParts(s: string, stray: string, inner: string, tail: string, info: Info)
    requires var start, end := First(s, '{'), Last(s, '}');
             start < end < |s| && s[start + 1..end] == inner && s[end..] == tail && ScanValue(s) == Done(info.value)
    ensures Parse(s, stray) == Done(info)
            <==> && ParseUnder(info.value, inner, stray) == Done(info.under)
                 && FileSetup(tail) == Done(Settings(info.path, info.level, info.format))
  {
  }

  /** Settings are read back if and only if they fit. */
  lemma SettingsIff(path: string, level: Int32, format: string, trailing: string)
    requires |trailing| <= 1
    ensures FileSetup(Tail(path, level, format) + trailing) == Done(Settings(path, level, format))
            <==> SettingsFit(path, level, format, trailing)
  {
    if SettingsFit(path, level, format, trailing) {
      SettingsBack(path, level, format, trailing);
    } else if FileSetup(Tail(path, level, format) + trailing) == Done(Settings(path, level, format)) {
      ReadIsPlain(Tail(path, level, format) + trailing);
      NotReadBack(path, level, format, trailing);
    }
  }

  lemma NotReadBack(path: string, level: Int32, format: string, trailing: string)
    requires Plain(path) && Plain(format) && |trailing| <= 1 && !SettingsFit(path, level, format, trailing)
    requires |Tail(path, level, format)| + |trailing| <= 99
    ensures FileSetup(Tail(path, level, format) + trailing) != Done(Settings(path, level, format))
  {
    TailTokens(path, level, format, trailing);
    if Harmless(trailing) {
      TooLong(path, level, format, if trailing == ";" then "" else trailing);
    } else {
      Attached(path, level, format, trailing);
    }
  }

  lemma TooLong(path: string, level: Int32, format: string, spaces: string)
    requires Plain(path) && Plain(format) && (|path| > 63 || |format| > 63)
    requires forall j :: 0 <= j < |spaces| ==> IsSpace(spaces[j])
    ensures FromTokens(["}", "path=" + path, "level=" + Signed(level), "format=" + format + spaces]).Fault?
  {
    PathBack(path);
    WordBack("format=", format, spaces);
    FromWords(["}", "path=" + path, "level=" + Signed(level), "format=" + format + spaces],
              if |path| <= 63 then Done(path) else Fault, if |format| <= 63 then Done(format) else Fault);
  }

  /** Any other character behind the text becomes part of the format. */
  lemma Attached(path: string, level: Int32, format: string, trailing: string)
    requires Plain(path) && Plain(format) && |trailing| == 1 && !IsSpace(trailing[0])
    ensures FromTokens(["}", "path=" + path, "level=" + Signed(level), "format=" + format + trailing])
         != Done(Settings(path, level, format))
  {
    PathBack(path);
    FormatAttached(format, trailing);
    assert |format + trailing| != |format|;
    FromWords(["}", "path=" + path, "level=" + Signed(level), "format=" + format + trailing],
              if |path| <= 63 then Done(path) else Fault,
              if |format + trailing| <= 63 then Done(format + trailing) else Fault);
  }

  lemma FormatAttached(format: string, trailing: string)
    requires Plain(format) && |trailing| == 1 && !IsSpace(trailing[0])
    ensures ScanWord("format=", "format=" + format + trailing)
         == if |format + trailing| <= 63 then Done(format + trailing) else Fault
  {
    WordBack("format=", format + trailing, "");
    assert "format=" + (format + trailing) + "" == "format=" + format + trailing;
  }

  /** A text with a brace behind its settings has no settings left after the last brace. */
  lemma BraceBehind(text: string, stray: string)
    ensures Parse(text + "}", stray).Fault?
  {
    var s := text + "}";
    LastAt(text, '}', "");
    assert text + ['}'] + "" == s;
    assert s[|text|..] == "}";
    OneBraceIsNoSetup();
  }

  lemma OneBraceIsNoSetup()
    ensures FileSetup("}").Fault?
  {
  }

  /** Reading gives clean settings only. */
  lemma ParsedIsClean(s: string, stray: string)
    requires Parse(s, stray).Done?
    ensures var info := Parse(s, stray).value;
            Clean(info.path) && Clean(info.format)
  {
    var end := Last(s, '}');
    assert s[end..][0] == '}';
    assert forall j :: 0 < j < |s[end..]| ==> s[end..][j] == s[end + j];
    ReadIsClean(s[end..]);
  }

  /** Main result on the configuration text: parsing what was printed gives back the same information,
      at every level of the stack, if and only if it survives. */
  lemma {:induction false} RoundTripIff(info: Info, stray: string, trailing: string)
    requires WellFormed(info) && |trailing| <= 1
    ensures Parse(Print(info) + trailing, stray) == Done(info) <==> Survives(info, stray, trailing)
    decreases info
  {
    if info.under.Nested? {
      RoundTripIff(info.under.info, Deeper(stray), Stray(stray));
    }
    if trailing != "}" && Clean(info.path) && Clean(info.format) {
      CleanRoundTripIff(info, stray, trailing);
    } else {
      UncleanIsLost(info, stray, trailing);
    }
  }

  lemma UncleanIsLost(info: Info, stray: string, trailing: string)
    requires trailing == "}" || !Clean(info.path) || !Clean(info.format)
    ensures Parse(Print(info) + trailing, stray) != Done(info)
  {
    if trailing == "}" {
      BraceBehind(Print(info), stray);
    } else if Parse(Print(info) + trailing, stray) == Done(info) {
      ParsedIsClean(Print(info) + trailing, stray);
    }
  }

  /** The connectors below survive if and only if they are read back. */
  ghost predicate BelowIff(info: Info, stray: string) {
    info.under.Nested? ==>
      (Parse(Print(info.under.info) + Stray(stray), Deeper(stray)) == Done(info.under.info)
       <==> Survives(info.under.info, Deeper(stray), Stray(stray)))
  }

  lemma CleanRoundTripIff(info: Info, stray: string, trailing: string)
    requires WellFormed(info) && |trailing| <= 1 && BelowIff(info, stray)
    requires trailing != "}" && Clean(info.path) && Clean(info.format)
    ensures Parse(Print(info) + trailing, stray) == Done(info) <==> Survives(info, stray, trailing)
  {
    ParsePrinted(info, stray, trailing);
    SettingsIff(info.path, info.level, info.format, trailing);
    UnderIff(info, stray);
  }

  lemma UnderIff(info: Info, stray: string)
    requires WellFormed(info) && BelowIff(info, stray)
    ensures ParseUnder(info.value, UnderText(info), stray) == Done(info.under)
            <==> match info.under
                 case NoInfo => true
                 case Opaque(t) => t != [] && Stray(stray) == []
                 case Nested(n) => Survives(n, Deeper(stray), Stray(stray))
  {
    match info.under
    case NoInfo =>
    case Opaque(t) => assert |t + Stray(stray)| == |t| + |Stray(stray)|; assert t + [] == t;
    case Nested(n) => assert Print(n) != [] by { assert |Print(n)| >= |Stem(n.value)| > 0; }
  }

  /** The whole text, with every byte after a copied text zero: the round trip holds exactly when the
      paths and formats of the stack are free of ";", "}" and white space and fit the buffers. */
  predicate AllSettingsSurvive(info: Info) {
    && SettingsSurvive(info.path, info.level, info.format, "")
    && match info.under
       case NoInfo => true
       case Opaque(t) => t != []
       case Nested(n) => AllSettingsSurvive(n)
  }

  lemma RoundTrip(info: Info)
    requires WellFormed(info)
    ensures Parse(Print(info), "") == Done(info) <==> AllSettingsSurvive(info)
  {
    RoundTripIff(info, "", "");
    assert Print(info) + "" == Print(info);
    NoStray(info);
  }

  lemma {:induction false} NoStray(info: Info)
    ensures Survives(info, "", "") <==> AllSettingsSurvive(info)
  {
    if info.under.Nested? { NoStray(info.under.info); }
  }

  /** A single stray byte is enough to lose the format of a nested connector, whatever the rest, unless
      it is NUL, ";" or white space. */
  lemma StrayByteBreaks(inner: Info, outer: Info, c: char)
    requires WellFormed(outer) && outer.under == Nested(inner)
    requires c != NUL && c != ';' && !IsSpace(c)
    ensures Parse(Print(outer), [c]) != Done(outer)
  {
    NotHarmless(inner, c);
    RoundTripIff(outer, [c], "");
    assert Print(outer) + "" == Print(outer);
  }

  lemma NotHarmless(info: Info, c: char)
    requires c != NUL && c != ';' && !IsSpace(c)
    ensures Stray([c]) == [c] && !Survives(info, Deeper([c]), [c])
  {
    assert !Harmless([c]);
  }
}

/** The C text functions that the connector's configuration string goes through: strchr, strrchr,
    strtok with ";" and the %s conversion of sscanf. Texts are C strings: no NUL inside. */
module TextScan {

  /** strchr: the first position of `c`, or the length of the text. */
  function First(s: string, c: char): (i: nat)
    ensures i <= |s|
    ensures i < |s| ==> s[i] == c
    ensures forall j :: 0 <= j < i ==> s[j] != c
  {
    if s == [] || s[0] == c then 0 else 1 + First(s[1..], c)
  }

  /** strrchr: the last position of `c`, or the length of the text. */
  function Last(s: string, c: char): (i: nat)
    ensures i <= |s|
    ensures i < |s| ==> s[i] == c
    ensures forall j :: 0 <= j < |s| && (i == |s| || i < j) ==> s[j] != c
  {
    if s == [] then 0
    else
      var n := |s| - 1;
      if s[n] == c then n
      else
        var i := Last(s[..n], c);
        if i == n then |s| else i
  }

  /** Successive strtok calls with ";": the maximal runs of other characters. */
  function Tokens(s: string): seq<string>
    decreases |s|
  {
    if s == [] then []
    else if s[0] == ';' then Tokens(s[1..])
    else
      var n := First(s, ';');
      [s[..n]] + Tokens(s[n..])
  }

  predicate IsSpace(c: char) {
    c == ' ' || ('\t' <= c <= '\r')
  }

  function SkipSpaces(s: string): (t: string)
    ensures |t| <= |s| && t == s[|s| - |t|..]
    ensures t != [] ==> !IsSpace(t[0])
  {
    if s == [] || !IsSpace(s[0]) then s else SkipSpaces(s[1..])
  }

  function WordLength(s: string): (n: nat)
    ensures n <= |s|
    ensures forall j :: 0 <= j < n ==> !IsSpace(s[j])
    ensures n < |s| ==> IsSpace(s[n])
  {
    if s == [] || IsSpace(s[0]) then 0 else 1 + WordLength(s[1..])
  }

  /** %s: the first run of characters that are not white space. */
  function Word(s: string): (w: string)
    ensures forall j :: 0 <= j < |w| ==> !IsSpace(w[j])
  {
    var t := SkipSpaces(s);
    t[..WordLength(t)]
  }

  // ---- what they do to composed texts ----

  lemma {:induction false} FirstAt(before: string, c: char, after: string)
    requires c !in before
    ensures First(before + [c] + after, c) == |before|
  {
    var s := before + [c] + after;
    var i := First(s, c);
    assert s[|before|] == c;
    assert forall j :: 0 <= j < |before| ==> s[j] == before[j];
  }

  lemma {:induction false} LastAt(before: string, c: char, after: string)
    requires c !in after
    ensures Last(before + [c] + after, c) == |before|
  {
    var s := before + [c] + after;
    forall j | |before| < j < |s| ensures s[j] != c {
      assert s[j] == after[j - |before| - 1];
    }
    LastIs(s, c, |before|);
  }

  lemma {:induction false} LastIs(s: string, c: char, p: nat)
    requires p < |s| && s[p] == c && forall j :: p < j < |s| ==> s[j] != c
    ensures Last(s, c) == p
  {
  }

  lemma TokensCons(token: string, rest: string)
    requires token != [] && ';' !in token
    ensures Tokens(token + ";" + rest) == [token] + Tokens(rest)
  {
    var s := token + ";" + rest;
    FirstAt(token, ';', rest);
    assert s[..|token|] == token && s[|token|..] == ";" + rest;
    assert (";" + rest)[1..] == rest;
  }

  /** The last token, with or without a ";" behind it. */
  lemma TokensLast(token: string)
    requires token != [] && ';' !in token
    ensures Tokens(token) == [token] && Tokens(token + ";") == [token]
  {
    assert First(token, ';') == |token|;
    assert token[..|token|] == token && token[|token|..] == [];
    TokensCons(token, []);
    assert token + ";" == token + ";" + [];
  }

  lemma {:induction false} NoSeparators(s: string)
    ensures forall i :: 0 <= i < |Tokens(s)| ==> ';' !in Tokens(s)[i]
    decreases |s|
  {
    if s != [] {
      if s[0] == ';' {
        NoSeparators(s[1..]);
      } else {
        var n := First(s, ';');
        NoSeparators(s[n..]);
        forall i | 0 <= i < |Tokens(s)| ensures ';' !in Tokens(s)[i] {
          if i > 0 { assert Tokens(s)[i] == Tokens(s[n..])[i - 1]; }
        }
      }
    }
  }

  /** No token contains the separator or a character the text does not. */
  lemma {:induction false} TokensAreParts(s: string, c: char)
    requires c !in s
    ensures forall i :: 0 <= i < |Tokens(s)| ==> c !in Tokens(s)[i] && ';' !in Tokens(s)[i]
    decreases |s|
  {
    if s != [] {
      if s[0] == ';' {
        TokensAreParts(s[1..], c);
      } else {
        var n := First(s, ';');
        TokensAreParts(s[n..], c);
        forall i | 0 <= i < |Tokens(s)| ensures c !in Tokens(s)[i] && ';' !in Tokens(s)[i] {
          if i > 0 { assert Tokens(s)[i] == Tokens(s[n..])[i - 1]; }
        }
      }
    }
  }

  /** A word followed by white space only is read back whole. */
  lemma WordOf(w: string, spaces: string)
    requires forall j :: 0 <= j < |w| ==> !IsSpace(w[j])
    requires forall j :: 0 <= j < |spaces| ==> IsSpace(spaces[j])
    ensures Word(w + spaces) == w
  {
    if w == [] {
      assert w + spaces == spaces;
      AllSpaces(spaces);
    } else {
      var s := w + spaces;
      assert SkipSpaces(s) == s;
      var n := WordLength(s);
      assert forall j :: 0 <= j < |w| ==> s[j] == w[j];
      assert |w| < |s| ==> s[|w|] == spaces[0];
      assert s[..|w|] == w;
    }
  }

  lemma {:induction false} AllSpaces(spaces: string)
    requires forall j :: 0 <= j < |spaces| ==> IsSpace(spaces[j])
    ensures SkipSpaces(spaces) == []
  {
  }

  /** A word has only characters of the text it is read from. */
  lemma WordIsPart(s: string, c: char)
    requires c !in s
    ensures c !in Word(s)
  {
  }

  /** Four texts with ";" between them. */
  function Join(a: string, b: string, c: string, d: string): string {
    a + ";" + (b + ";" + (c + ";" + d))
  }

  predicate IsToken(s: string) {
    s != [] && ';' !in s
  }

  lemma JoinedTokens(a: string, b: string, c: string, d: string)
    requires IsToken(a) && IsToken(b) && IsToken(c) && IsToken(d)
    ensures Tokens(Join(a, b, c, d)) == [a, b, c, d]
  {
    TokensLast(d);
    TokensCons(c, d);
    TokensCons(b, c + ";" + d);
    TokensCons(a, b + ";" + (c + ";" + d));
  }

  lemma JoinedTokensCut(a: string, b: string, c: string, d: string)
    requires IsToken(a) && IsToken(b) && IsToken(c) && IsToken(d)
    ensures Tokens(Join(a, b, c, d + ";")) == [a, b, c, d]
  {
    TokensLast(d);
    TokensCons(c, d + ";");
    TokensCons(b, c + ";" + (d + ";"));
    TokensCons(a, b + ";" + (c + ";" + (d + ";")));
  }

  lemma JoinAppend(a: string, b: string, c: string, d: string, t: string)
    ensures Join(a, b, c, d) + t == Join(a, b, c, d + t)
  {
  }
}

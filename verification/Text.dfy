/** Whitespace, case and order of strings, as the sources use them. */
module Text {
  import opened Common

  predicate IsSpace(c: char) {
    c == ' ' || c == '\t' || c == '\n' || c == '\U{000B}' || c == '\U{000C}' || c == '\r'
  }

  lemma SpaceCodes(c: char)
    ensures IsSpace(c) <==> c as int == 32 || 9 <= c as int <= 13
  {
  }

  function TrimStart(s: string): (r: string)
    ensures r == [] || !IsSpace(r[0])
    ensures |r| <= |s|
  {
    if s != [] && IsSpace(s[0]) then TrimStart(s[1..]) else s
  }

  function TrimEnd(s: string): (r: string)
    ensures r == [] || !IsSpace(r[|r| - 1])
    ensures |r| <= |s| && r == s[..|r|]
  {
    if s != [] && IsSpace(s[|s| - 1]) then TrimEnd(s[..|s| - 1]) else s
  }

  function Trim(s: string): string {
    TrimEnd(TrimStart(s))
  }

  /** What is trimmed off is whitespace, and no more can be. */
  lemma {:induction false} TrimIsMiddle(s: string)
    ensures exists before: string, after: string ::
              s == before + Trim(s) + after
              && (forall c :: c in before || c in after ==> IsSpace(c))
    ensures Trim(s) == "" || (!IsSpace(Trim(s)[0]) && !IsSpace(Trim(s)[|Trim(s)| - 1]))
  {
    var rest := TrimStart(s);
    var n := StartOf(s);
    var m := EndOf(rest);
    assert s == s[..n] + Trim(s) + rest[m..];
  }

  lemma {:induction false} StartOf(s: string) returns (n: nat)
    ensures n <= |s| && TrimStart(s) == s[n..] && forall c :: c in s[..n] ==> IsSpace(c)
  {
    n := 0;
    if s != [] && IsSpace(s[0]) {
      n := StartOf(s[1..]);
      assert s[..n + 1] == [s[0]] + s[1..][..n];
      n := n + 1;
    }
  }

  lemma {:induction false} EndOf(s: string) returns (n: nat)
    ensures n <= |s| && TrimEnd(s) == s[..n] && forall c :: c in s[n..] ==> IsSpace(c)
  {
    n := |s|;
    if s != [] && IsSpace(s[|s| - 1]) {
      n := EndOf(s[..|s| - 1]);
      assert s[n..] == s[..|s| - 1][n..] + [s[|s| - 1]];
    }
  }

  /** `normalizeString`: a present string, trimmed, or nothing when only blanks are left. */
  function NormalizeString(s: Option<string>): Option<string> {
    if s.Some? && Trim(s.value) != "" then Some(Trim(s.value)) else None
  }

  function LowerChar(c: char): char {
    if 'A' <= c <= 'Z' then (c as int - 'A' as int + 'a' as int) as char else c
  }

  /** Upper-case letters become the lower-case ones at the same place in the alphabet; nothing else changes. */
  lemma LowerCharIs(c: char)
    ensures c in UPPER <==> LowerChar(c) != c
    ensures forall i :: 0 <= i < 26 ==> LowerChar(UPPER[i]) == LOWER[i]
  {
    if LowerChar(c) != c {
      assert UPPER[c as int - 'A' as int] == c;
    }
  }

  const UPPER: string := "ABCDEFGHIJKLMNOPQRSTUVWXYZ"
  const LOWER: string := "abcdefghijklmnopqrstuvwxyz"

  function Lower(s: string): (r: string)
    ensures |r| == |s|
    ensures forall i :: 0 <= i < |s| ==> r[i] == LowerChar(s[i])
  {
    if s == [] then [] else [LowerChar(s[0])] + Lower(s[1..])
  }

  /** `key.split("-")[0]`. */
  function BeforeDash(key: string): string {
    if key == "" || key[0] == '-' then "" else [key[0]] + BeforeDash(key[1..])
  }

  lemma {:induction false} BeforeDashEnds(key: string)
    ensures BeforeDash(key) <= key && '-' !in BeforeDash(key)
    ensures |BeforeDash(key)| < |key| ==> key[|BeforeDash(key)|] == '-'
  {
    if key != "" && key[0] != '-' {
      BeforeDashEnds(key[1..]);
    }
  }

  lemma {:induction false} OnlyBeforeDash(queue: string, key: string)
    requires queue <= key && '-' !in queue && (|queue| < |key| ==> key[|queue|] == '-')
    ensures queue == BeforeDash(key)
  {
    if queue != "" {
      assert key[0] == queue[0] && '-' !in queue[1..];
      OnlyBeforeDash(queue[1..], key[1..]);
    }
  }

  // ---------------------------------------------------------------------------------------------
  // Words
  // ---------------------------------------------------------------------------------------------

  /** The longest prefix without whitespace. */
  function TakeWord(s: string): (r: string)
    ensures |r| <= |s| && r == s[..|r|]
    ensures forall c :: c in r ==> !IsSpace(c)
    ensures |r| < |s| ==> IsSpace(s[|r|])
    ensures s != "" && !IsSpace(s[0]) ==> r != ""
  {
    if s == "" || IsSpace(s[0]) then "" else [s[0]] + TakeWord(s[1..])
  }

  /** The maximal runs of characters that are not whitespace. */
  function Words(s: string): (r: seq<string>)
    ensures forall w :: w in r ==> IsWord(w)
    decreases |s|
  {
    if s == "" then []
    else if IsSpace(s[0]) then Words(s[1..])
    else [TakeWord(s)] + Words(s[|TakeWord(s)|..])
  }

  predicate IsWord(w: string) {
    w != "" && forall c :: c in w ==> !IsSpace(c)
  }

  /** `parts.join(separator)`. */
  function JoinBy(parts: seq<string>, separator: char): string {
    if parts == [] then ""
    else if |parts| == 1 then parts[0]
    else parts[0] + [separator] + JoinBy(parts[1..], separator)
  }

  function Join(words: seq<string>): string {
    JoinBy(words, ' ')
  }

  /** `s.replace(/\s+/g, " ")`. */
  function CollapseSpaces(s: string): string
    decreases |s|
  {
    if s == "" then ""
    else if IsSpace(s[0]) then " " + CollapseSpaces(TrimStart(s))
    else [s[0]] + CollapseSpaces(s[1..])
  }

  lemma {:induction false} CollapseAfterWord(w: string, rest: string)
    requires forall c :: c in w ==> !IsSpace(c)
    ensures CollapseSpaces(w + rest) == w + CollapseSpaces(rest)
  {
    if w == "" {
      assert w + rest == rest;
    } else {
      CollapseAfterWord(w[1..], rest);
      assert (w + rest)[1..] == w[1..] + rest;
    }
  }

  lemma {:induction false} WordsSkipLeading(s: string)
    ensures Words(TrimStart(s)) == Words(s)
    decreases |s|
  {
    if s != "" && IsSpace(s[0]) {
      WordsSkipLeading(s[1..]);
    }
  }

  lemma {:induction false} WordsSkipTrailing(s: string, c: char)
    requires IsSpace(c)
    ensures Words(s + [c]) == Words(s)
    decreases |s|
  {
    var t := s + [c];
    if s == "" {
      assert t[1..] == "";
    } else if IsSpace(s[0]) {
      WordsSkipTrailing(s[1..], c);
      assert t[1..] == s[1..] + [c];
    } else {
      TakeWordAppend(s, c);
      var n := |TakeWord(s)|;
      WordsSkipTrailing(s[n..], c);
      assert t[n..] == s[n..] + [c];
    }
  }

  lemma {:induction false} TakeWordAppend(s: string, c: char)
    requires IsSpace(c)
    ensures TakeWord(s + [c]) == TakeWord(s)
  {
    if s != "" && !IsSpace(s[0]) {
      TakeWordAppend(s[1..], c);
      assert (s + [c])[1..] == s[1..] + [c];
    }
  }

  lemma {:induction false} WordsSkipTrimmedEnd(s: string)
    ensures Words(TrimEnd(s)) == Words(s)
    decreases |s|
  {
    if s != "" && IsSpace(s[|s| - 1]) {
      var init := s[..|s| - 1];
      WordsSkipTrimmedEnd(init);
      WordsSkipTrailing(init, s[|s| - 1]);
      assert s == init + [s[|s| - 1]];
    }
  }

  /** A text that starts and ends with a word. */
  predicate IsTidy(s: string) {
    s == "" || (!IsSpace(s[0]) && !IsSpace(s[|s| - 1]))
  }

  /** On such a text, collapsing is joining its words. */
  lemma {:induction false} CollapseIsJoin(s: string)
    requires IsTidy(s)
    ensures CollapseSpaces(s) == Join(Words(s))
    decreases |s|
  {
    if s != "" {
      var w, rest := TakeWord(s), s[|TakeWord(s)|..];
      assert s == w + rest;
      CollapseAfterWord(w, rest);
      if rest != "" {
        assert rest[|rest| - 1] == s[|s| - 1];
        TrimStartKeepsEnd(rest);
        CollapseIsJoin(TrimStart(rest));
        JoinAfterWord(w, rest);
      }
    }
  }

  lemma JoinAfterWord(w: string, rest: string)
    requires rest != "" && IsSpace(rest[0]) && Words(TrimStart(rest)) != []
    ensures Join([w] + Words(rest)) == w + " " + Join(Words(TrimStart(rest)))
  {
    WordsSkipLeading(rest);
    assert ([w] + Words(rest))[1..] == Words(rest);
  }

  lemma {:induction false} TrimStartKeepsEnd(s: string)
    requires s != "" && !IsSpace(s[|s| - 1])
    ensures TrimStart(s) != "" && TrimStart(s)[|TrimStart(s)| - 1] == s[|s| - 1]
    ensures Words(s) != [] && Words(TrimStart(s)) != []
    decreases |s|
  {
    if IsSpace(s[0]) {
      TrimStartKeepsEnd(s[1..]);
    }
  }

  /** Text before the first separator decides where the separator is. */
  lemma {:induction false} SplitAtFirst(a: string, b: string, c: string, d: string, separator: char)
    requires separator !in a && separator !in c
    requires a + [separator] + b == c + [separator] + d
    ensures a == c && b == d
  {
    var s := a + [separator] + b;
    assert s[0] == (if a == "" then separator else a[0]) && s[0] == if c == "" then separator else c[0];
    assert s[1..] == if a == "" then b else a[1..] + [separator] + b;
    assert s[1..] == if c == "" then d else c[1..] + [separator] + d;
    if a != "" && c != "" {
      SplitAtFirst(a[1..], b, c[1..], d, separator);
    }
  }

  function Terminate(parts: seq<string>, separator: char): string {
    if parts == [] then "" else parts[0] + [separator] + Terminate(parts[1..], separator)
  }

  lemma {:induction false} JoinIsTerminated(parts: seq<string>, separator: char)
    requires parts != []
    ensures JoinBy(parts, separator) + [separator] == Terminate(parts, separator)
  {
    if |parts| == 1 {
      assert Terminate(parts[1..], separator) == "";
    } else {
      JoinIsTerminated(parts[1..], separator);
    }
  }

  lemma {:induction false} TerminateIsInjective(a: seq<string>, b: seq<string>, separator: char)
    requires forall p :: p in a || p in b ==> separator !in p
    requires Terminate(a, separator) == Terminate(b, separator)
    ensures a == b
  {
    if a != [] && b != [] {
      assert a[0] in a && b[0] in b;
      SplitAtFirst(a[0], Terminate(a[1..], separator), b[0], Terminate(b[1..], separator), separator);
      TerminateIsInjective(a[1..], b[1..], separator);
    }
  }

  predicate IsPart(p: string, separator: char) {
    p != "" && separator !in p
  }

  /** Joined parts can be told apart when none is empty or contains the separator. */
  lemma JoinByIsInjective(a: seq<string>, b: seq<string>, separator: char)
    requires forall p :: p in a || p in b ==> IsPart(p, separator)
    requires JoinBy(a, separator) == JoinBy(b, separator)
    ensures a == b
  {
    assert (a == [] || a[0] in a) && (b == [] || b[0] in b);
    if a != [] && b != [] {
      JoinIsTerminated(a, separator);
      JoinIsTerminated(b, separator);
      TerminateIsInjective(a, b, separator);
    }
  }

  lemma JoinIsInjective(a: seq<string>, b: seq<string>)
    requires forall w :: w in a || w in b ==> IsWord(w)
    requires Join(a) == Join(b)
    ensures a == b
  {
    JoinByIsInjective(a, b, ' ');
  }

  // ---------------------------------------------------------------------------------------------
  // Case
  // ---------------------------------------------------------------------------------------------

  lemma {:induction false} LowerTrimStart(s: string)
    ensures Lower(TrimStart(s)) == TrimStart(Lower(s))
  {
    if s != "" && IsSpace(s[0]) {
      LowerTrimStart(s[1..]);
      assert Lower(s)[1..] == Lower(s[1..]);
    }
  }

  lemma {:induction false} LowerTrimEnd(s: string)
    ensures Lower(TrimEnd(s)) == TrimEnd(Lower(s))
    decreases |s|
  {
    if s != "" {
      var n := |s| - 1;
      SpaceHasNoCase(s[n]);
      assert Lower(s)[n] == LowerChar(s[n]);
      if IsSpace(s[n]) {
        LowerTrimEnd(s[..n]);
        assert Lower(s)[..n] == Lower(s[..n]);
      }
    }
  }

  lemma SpaceHasNoCase(c: char)
    ensures IsSpace(LowerChar(c)) <==> IsSpace(c)
  {
  }

  lemma LowerTrim(s: string)
    ensures Lower(Trim(s)) == Trim(Lower(s))
  {
    LowerTrimStart(s);
    LowerTrimEnd(TrimStart(s));
  }

  lemma TrimHasCleanEnds(s: string)
    ensures IsTidy(Trim(s))
  {
    assert Trim(s) <= TrimStart(s);
  }

  lemma WordsOfTrim(s: string)
    ensures Words(Trim(s)) == Words(s)
  {
    WordsSkipLeading(s);
    WordsSkipTrimmedEnd(TrimStart(s));
  }
}

/**
 * The string operations the Android bridge applies before it splices text
 * into JavaScript source: one-character `String.replace` and
 * `String.contains`.
 */
module JsText {

  /** Kotlin's `s.replace("<c>", rep)` for a one-character pattern: each
      occurrence of `c`, left to right, becomes `rep`. */
  function ReplaceChar(s: string, c: char, rep: string): string {
    if s == [] then []
    else (if s[0] == c then rep else [s[0]]) + ReplaceChar(s[1..], c, rep)
  }

  /** Replacing a character that does not occur changes nothing; the
      character is gone when the replacement does not contain it; every other
      character survives. */
  lemma {:induction false} ReplaceCharFacts(s: string, c: char, rep: string)
    ensures c !in s ==> ReplaceChar(s, c, rep) == s
    ensures c !in rep ==> c !in ReplaceChar(s, c, rep)
    ensures forall x :: x in s && x != c ==> x in ReplaceChar(s, c, rep)
  {
    if s != [] {
      ReplaceCharFacts(s[1..], c, rep);
      assert s == [s[0]] + s[1..];
      assert forall x :: x in s && x != s[0] ==> x in s[1..];
    }
  }

  /** Every occurrence of `c` in `r` is preceded by a backslash; `atStart`
      says whether the character just before `r` (if any) is one. */
  ghost predicate GuardedFrom(r: string, c: char, atStart: bool) {
    && (|r| > 0 && r[0] == c ==> atStart)
    && forall i :: 0 < i < |r| && r[i] == c ==> r[i - 1] == '\\'
  }

  /** Every occurrence of `c` in `r` is directly preceded by a backslash.
      That backslash may itself be escaped, so this alone does not keep `c`
      from closing a JavaScript literal delimited by `c`. */
  ghost predicate Guarded(r: string, c: char) {
    GuardedFrom(r, c, false)
  }

  /** Undoes `ReplaceChar(s, c, "\\" + c)`: each backslash followed by `c`
      becomes `c`; everything else is kept. */
  function Unescape(r: string, c: char): string {
    if r == [] then []
    else if |r| >= 2 && r[0] == '\\' && r[1] == c then [c] + Unescape(r[2..], c)
    else [r[0]] + Unescape(r[1..], c)
  }

  /** Decodes only the two escapes `\"` and `\n`, as a JavaScript string
      literal reads them: each becomes the double quote or the line break.
      Every other character is kept as it is. This is not a full literal
      reader: other backslash escapes, and a single quote that ends a
      single-quoted literal, are outside it. */
  function DecodeQuoteAndBreak(r: string): string {
    if r == [] then []
    else if |r| >= 2 && r[0] == '\\' && r[1] == '"' then ['"'] + DecodeQuoteAndBreak(r[2..])
    else if |r| >= 2 && r[0] == '\\' && r[1] == 'n' then ['\n'] + DecodeQuoteAndBreak(r[2..])
    else [r[0]] + DecodeQuoteAndBreak(r[1..])
  }

  /** `sub` occurs in `s` starting at index `i`. */
  predicate OccursAt(s: string, sub: string, i: nat) {
    i + |sub| <= |s| && s[i..i + |sub|] == sub
  }

  /** Kotlin's `s.contains(sub)`. */
  predicate Contains(s: string, sub: string) {
    exists i | 0 <= i <= |s| :: OccursAt(s, sub, i)
  }

  lemma {:induction false} GuardedConcat(a: string, b: string, c: char, atStart: bool)
    requires GuardedFrom(a, c, atStart)
    requires GuardedFrom(b, c, if a == [] then atStart else a[|a| - 1] == '\\')
    ensures GuardedFrom(a + b, c, atStart)
  {
    forall i | 0 < i < |a + b| && (a + b)[i] == c
      ensures (a + b)[i - 1] == '\\'
    {
      if i > |a| {
        assert b[i - |a|] == c;
        assert (a + b)[i - 1] == b[i - |a| - 1];
      } else if i == |a| {
        assert b[0] == c;
        assert (a + b)[i - 1] == a[|a| - 1];
      } else {
        assert a[i] == c;
        assert (a + b)[i - 1] == a[i - 1];
      }
    }
  }

  /** Backslash-escaping `c` guards every occurrence of `c`. */
  lemma {:induction false} EscapeGuards(s: string, c: char)
    requires c != '\\'
    ensures Guarded(ReplaceChar(s, c, ['\\', c]), c)
  {
    if s != [] {
      EscapeGuards(s[1..], c);
      var head: string := if s[0] == c then ['\\', c] else [s[0]];
      GuardedConcat(head, ReplaceChar(s[1..], c, ['\\', c]), c, false);
    }
  }

  /** Replacing a character other than the backslash and `d` by text free of
      `d` keeps every `d` guarded. */
  lemma {:induction false} ReplaceKeepsGuard(s: string, c: char, rep: string, d: char, atStart: bool)
    requires c != '\\' && c != d && d !in rep
    requires GuardedFrom(s, d, atStart)
    ensures GuardedFrom(ReplaceChar(s, c, rep), d, atStart)
  {
    if s != [] {
      assert GuardedFrom(s[1..], d, s[0] == '\\') by {
        forall i | 0 < i < |s[1..]| && s[1..][i] == d
          ensures s[1..][i - 1] == '\\'
        {
          assert s[i + 1] == d;
        }
      }
      ReplaceKeepsGuard(s[1..], c, rep, d, s[0] == '\\');
      var tail := ReplaceChar(s[1..], c, rep);
      if s[0] == c {
        assert GuardedFrom(rep, d, atStart);
        if rep != [] && rep[|rep| - 1] == '\\' {
          assert GuardedFrom(tail, d, true);
        }
        GuardedConcat(rep, tail, d, atStart);
      } else {
        GuardedConcat([s[0]], tail, d, atStart);
      }
    }
  }

  /** Removing the inserted backslashes restores the input. */
  lemma {:induction false} EscapeRoundTrip(s: string, c: char)
    requires c != '\\'
    ensures Unescape(ReplaceChar(s, c, ['\\', c]), c) == s
  {
    if s != [] {
      EscapeRoundTrip(s[1..], c);
      var tail := ReplaceChar(s[1..], c, ['\\', c]);
      EscapeGuards(s[1..], c);
      assert tail != [] ==> tail[0] != c;
      if s[0] == c {
        assert (['\\', c] + tail)[2..] == tail;
      } else {
        assert ([s[0]] + tail)[1..] == tail;
      }
      assert s == [s[0]] + s[1..];
    }
  }

  lemma {:induction false} ReplaceCharConcat(a: string, b: string, c: char, rep: string)
    ensures ReplaceChar(a + b, c, rep) == ReplaceChar(a, c, rep) + ReplaceChar(b, c, rep)
  {
    if a == [] {
      assert a + b == b;
    } else {
      var rest := a[1..];
      assert a + b == [a[0]] + (rest + b);
      ReplaceCharConcat(rest, b, c, rep);
      var head: string := if a[0] == c then rep else [a[0]];
      var x, y := ReplaceChar(rest, c, rep), ReplaceChar(b, c, rep);
      assert ReplaceChar(a + b, c, rep) == head + (x + y);
      assert ReplaceChar(a, c, rep) == head + x;
      assert head + (x + y) == (head + x) + y;
    }
  }

  /** What escaping double quotes and then line breaks makes of one character. */
  function EscapeQuoteOrBreak(ch: char): string {
    if ch == '"' then "\\\"" else if ch == '\n' then "\\n" else [ch]
  }

  /** The two replacements, peeled off at the first character. */
  lemma QuoteAndBreakStep(s: string)
    requires s != []
    ensures ReplaceChar(ReplaceChar(s, '"', "\\\""), '\n', "\\n")
              == EscapeQuoteOrBreak(s[0]) + ReplaceChar(ReplaceChar(s[1..], '"', "\\\""), '\n', "\\n")
  {
    var head: string := if s[0] == '"' then "\\\"" else [s[0]];
    var rest := ReplaceChar(s[1..], '"', "\\\"");
    assert ReplaceChar(s, '"', "\\\"") == head + rest;
    ReplaceCharConcat(head, rest, '\n', "\\n");
    if s[0] == '"' {
      assert ReplaceChar(head, '\n', "\\n") == "\\\"";
    } else if s[0] == '\n' {
      assert ReplaceChar(head, '\n', "\\n") == "\\n";
    } else {
      assert ReplaceChar(head, '\n', "\\n") == [s[0]];
    }
  }

  /** Decoding reads one escaped character back. */
  lemma DecodeStep(ch: char, t: string)
    requires ch != '\\'
    ensures DecodeQuoteAndBreak(EscapeQuoteOrBreak(ch) + t) == [ch] + DecodeQuoteAndBreak(t)
  {
    var e := EscapeQuoteOrBreak(ch);
    if ch == '"' || ch == '\n' {
      assert (e + t)[2..] == t;
    } else {
      assert (e + t)[1..] == t;
    }
  }

  /** Escaping double quotes and then line breaks is undone by reading the
      result as a string literal, provided the text holds no backslash of
      its own. */
  lemma {:induction false} QuoteAndBreakRoundTrip(s: string)
    requires '\\' !in s
    ensures DecodeQuoteAndBreak(ReplaceChar(ReplaceChar(s, '"', "\\\""), '\n', "\\n")) == s
  {
    if s != [] {
      QuoteAndBreakRoundTrip(s[1..]);
      QuoteAndBreakStep(s);
      DecodeStep(s[0], ReplaceChar(ReplaceChar(s[1..], '"', "\\\""), '\n', "\\n"));
      assert s == [s[0]] + s[1..];
    }
  }
}

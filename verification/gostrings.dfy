/**
 * The handful of Go `strings` and `unicode` operations the exporter relies on,
 * over strings of runes.
 */
module GoStrings {

  /** unicode.IsSpace: the ASCII spaces plus the Unicode White_Space characters. */
  predicate IsSpace(c: char) {
    if c <= '\U{7F}' then IsAsciiSpace(c) else IsWideSpace(c)
  }

  predicate IsAsciiSpace(c: char) {
    c == '\t' || c == '\n' || c == '\U{0B}' || c == '\U{0C}' || c == '\r' || c == ' '
  }

  predicate IsWideSpace(c: char) {
    || c == '\U{85}' || c == '\U{A0}' || c == '\U{1680}'
    || ('\U{2000}' <= c <= '\U{200A}')
    || c == '\U{2028}' || c == '\U{2029}' || c == '\U{202F}' || c == '\U{205F}' || c == '\U{3000}'
  }

  /** The `\s` class of Go's regular expressions: [\t\n\f\r ] (no vertical tab, ASCII only). */
  predicate IsPerlSpace(c: char)
    ensures IsPerlSpace(c) ==> IsSpace(c)
  {
    c == '\t' || c == '\n' || c == '\U{0C}' || c == '\r' || c == ' '
  }

  /** Drops the leading white space. */
  function TrimLeft(s: string): string {
    if |s| > 0 && IsSpace(s[0]) then TrimLeft(s[1..]) else s
  }

  /** What TrimLeft drops is white space, and what it keeps is a suffix not starting with any. */
  lemma {:induction false} TrimLeftFacts(s: string)
    ensures |TrimLeft(s)| <= |s| && TrimLeft(s) == s[|s| - |TrimLeft(s)|..]
    ensures forall i :: 0 <= i < |s| - |TrimLeft(s)| ==> IsSpace(s[i])
    ensures |TrimLeft(s)| > 0 ==> !IsSpace(TrimLeft(s)[0])
  {
    if |s| > 0 && IsSpace(s[0]) {
      TrimLeftFacts(s[1..]);
      TrimLeftStep(s, TrimLeft(s[1..]));
    }
  }

  lemma {:induction false} TrimLeftStep(s: string, r: string)
    requires |s| > 0 && IsSpace(s[0])
    requires |r| <= |s| - 1 && r == s[1..][|s| - 1 - |r|..]
    requires forall i :: 0 <= i < |s| - 1 - |r| ==> IsSpace(s[1..][i])
    ensures r == s[|s| - |r|..]
    ensures forall i :: 0 <= i < |s| - |r| ==> IsSpace(s[i])
  {
    forall i | 0 <= i < |s| - |r| ensures IsSpace(s[i]) {
      if i > 0 { assert s[i] == s[1..][i - 1]; }
    }
  }

  /** Drops the trailing white space. */
  function TrimRight(s: string): string {
    if |s| > 0 && IsSpace(s[|s| - 1]) then TrimRight(s[..|s| - 1]) else s
  }

  /** What TrimRight drops is white space, and what it keeps is a prefix not ending with any. */
  lemma {:induction false} TrimRightFacts(s: string)
    ensures |TrimRight(s)| <= |s| && TrimRight(s) == s[..|TrimRight(s)|]
    ensures forall i :: |TrimRight(s)| <= i < |s| ==> IsSpace(s[i])
    ensures |TrimRight(s)| > 0 ==> !IsSpace(TrimRight(s)[|TrimRight(s)| - 1])
  {
    if |s| > 0 && IsSpace(s[|s| - 1]) {
      var t := s[..|s| - 1];
      TrimRightFacts(t);
      assert forall i :: 0 <= i < |t| ==> t[i] == s[i];
    }
  }

  /** Neither the first nor the last rune of `t` is white space. */
  predicate NoEdgeSpace(t: string) {
    |t| > 0 ==> !IsSpace(t[0]) && !IsSpace(t[|t| - 1])
  }

  /** strings.TrimSpace: drops the white space at both ends. */
  function TrimSpace(s: string): (r: string)
    ensures |r| <= |s|
    ensures NoEdgeSpace(r)
  {
    TrimLeftFacts(s);
    TrimRightFacts(TrimLeft(s));
    TrimRight(TrimLeft(s))
  }

  /** Where the trim of `s` starts: after the leading white space. */
  function TrimStart(s: string): nat {
    TrimLeftFacts(s);
    |s| - |TrimLeft(s)|
  }

  /**
   * The trim is the slice of `s` left when the white space at either end is
   * dropped: everything before it and everything after it is white space,
   * and it neither starts nor ends with white space. It is empty exactly when
   * `s` is all white space, and a text with no white space at either end is
   * its own trim.
   */
  lemma {:induction false} TrimSpaceFacts(s: string)
    ensures OccursAt(s, TrimSpace(s), TrimStart(s))
    ensures exists i: nat :: OccursAt(s, TrimSpace(s), i)
    ensures forall k :: 0 <= k < TrimStart(s) ==> IsSpace(s[k])
    ensures forall k :: TrimStart(s) + |TrimSpace(s)| <= k < |s| ==> IsSpace(s[k])
    ensures |TrimSpace(s)| > 0 ==> !IsSpace(TrimSpace(s)[0]) && !IsSpace(TrimSpace(s)[|TrimSpace(s)| - 1])
    ensures TrimSpace(s) == [] <==> forall i :: 0 <= i < |s| ==> IsSpace(s[i])
    ensures |s| > 0 && !IsSpace(s[0]) && !IsSpace(s[|s| - 1]) ==> TrimSpace(s) == s
  {
    var l := TrimLeft(s);
    var r := TrimRight(l);
    TrimLeftFacts(s);
    TrimRightFacts(l);
    TrimmedSlice(s, l, r);
    TrimmedEmpty(s, l, r);
    var at: nat := |s| - |l|;
    assert OccursAt(s, TrimSpace(s), at);
    forall k | at + |r| <= k < |s| ensures IsSpace(s[k]) {
      assert s[k] == l[k - at];
    }
  }

  lemma {:induction false} TrimmedSlice(s: string, l: string, r: string)
    requires |l| <= |s| && l == s[|s| - |l|..]
    requires |r| <= |l| && r == l[..|r|]
    ensures OccursAt(s, r, |s| - |l|)
  {
    assert s[|s| - |l|..|s| - |l| + |r|] == l[..|r|];
  }

  lemma {:induction false} TrimmedEmpty(s: string, l: string, r: string)
    requires l == TrimLeft(s) && r == TrimRight(l)
    ensures r == [] <==> forall i :: 0 <= i < |s| ==> IsSpace(s[i])
    ensures |s| > 0 && !IsSpace(s[0]) && !IsSpace(s[|s| - 1]) ==> r == s
  {
    TrimLeftFacts(s);
    TrimRightFacts(l);
    if r == [] {
      assert l == [];
    }
  }

  lemma {:induction false} TrimSpaceIdempotent(s: string)
    ensures TrimSpace(TrimSpace(s)) == TrimSpace(s)
  {
    TrimSpaceFacts(s);
    TrimSpaceFacts(TrimSpace(s));
  }

  /** A text with no white space at either end is its own trim. */
  lemma {:induction false} TrimSpaceOfTrimmed(x: string)
    requires |x| > 0 ==> !IsSpace(x[0]) && !IsSpace(x[|x| - 1])
    ensures TrimSpace(x) == x
  {
    TrimSpaceFacts(x);
  }

  /** Length of the run of non-space runes at the start of `s`. */
  function WordLength(s: string): (n: nat)
    ensures n <= |s|
    ensures forall i :: 0 <= i < n ==> !IsSpace(s[i])
    ensures n < |s| ==> IsSpace(s[n])
    ensures |s| > 0 && !IsSpace(s[0]) ==> n > 0
  {
    if |s| > 0 && !IsSpace(s[0]) then 1 + WordLength(s[1..]) else 0
  }

  /** A non-empty run of non-space runes. */
  predicate IsWord(w: string) {
    |w| > 0 && forall i :: 0 <= i < |w| ==> !IsSpace(w[i])
  }

  /** strings.Fields: the maximal runs of non-space runes, in order. */
  function Fields(s: string): (r: seq<string>)
    ensures forall k :: 0 <= k < |r| ==> IsWord(r[k])
  {
    if s == [] then []
    else if IsSpace(s[0]) then Fields(s[1..])
    else
      var n := WordLength(s);
      FirstWord(s);
      var rest := Fields(s[n..]);
      ConsWords(s[..n], rest);
      [s[..n]] + rest
  }

  lemma {:induction false} FirstWord(t: string)
    requires |t| > 0 && !IsSpace(t[0])
    ensures WordLength(t) > 0 && IsWord(t[..WordLength(t)])
  {
  }

  lemma {:induction false} ConsWords(w: string, rest: seq<string>)
    requires IsWord(w) && forall k :: 0 <= k < |rest| ==> IsWord(rest[k])
    ensures forall k :: 0 <= k < |[w] + rest| ==> IsWord(([w] + rest)[k])
  {
  }

  /** A leading white-space rune does not change the fields. */
  lemma {:induction false} FieldsSkipSpace(sp: char, b: string)
    requires IsSpace(sp)
    ensures Fields([sp] + b) == Fields(b)
  {
    assert ([sp] + b)[1..] == b;
  }

  /** Splitting text at one white-space separator joins the fields of both halves. */
  lemma {:induction false} FieldsAppend(a: string, sp: char, b: string)
    requires IsSpace(sp)
    requires IsWord(a)
    ensures Fields(a + [sp] + b) == [a] + Fields(b)
  {
    var s := a + [sp] + b;
    var tail := [sp] + b;
    assert s == a + tail;
    FieldsOfWordStart(s);
    assert WordLength(tail) == 0;
    WordLengthAppend(a, tail);
    assert s[..|a|] == a;
    assert s[|a|..] == tail;
    FieldsSkipSpace(sp, b);
  }

  /** Text that starts with a word has that word as its first field. */
  lemma {:induction false} FieldsOfWordStart(s: string)
    requires |s| > 0 && !IsSpace(s[0])
    ensures Fields(s) == [s[..WordLength(s)]] + Fields(s[WordLength(s)..])
  {
  }

  lemma {:induction false} WordLengthAppend(a: string, b: string)
    requires forall i :: 0 <= i < |a| ==> !IsSpace(a[i])
    ensures WordLength(a + b) == |a| + WordLength(b)
  {
    if a != [] {
      assert (a + b)[1..] == a[1..] + b;
      WordLengthAppend(a[1..], b);
    } else {
      assert a + b == b;
    }
  }

  /** A run of non-space runes is a single field. */
  lemma {:induction false} FieldsOfWord(w: string)
    requires |w| > 0 && forall i :: 0 <= i < |w| ==> !IsSpace(w[i])
    ensures Fields(w) == [w]
  {
    WordLengthAppend(w, []);
    assert w + [] == w;
    assert w[|w|..] == [];
  }

  /** Every rune of `t` is white space. */
  predicate AllSpace(t: string) {
    forall i :: 0 <= i < |t| ==> IsSpace(t[i])
  }

  /** Every element of `ws` is a word. */
  predicate AllWords(ws: seq<string>) {
    forall k :: 0 <= k < |ws| ==> IsWord(ws[k])
  }

  /** The words `ws` laid out with the gap `gaps[k]` before `ws[k]`, and the last gap after them all. */
  function Spaced(ws: seq<string>, gaps: seq<string>): string
    requires |gaps| == |ws| + 1
  {
    if ws == [] then gaps[0] else gaps[0] + ws[0] + Spaced(ws[1..], gaps[1..])
  }

  /** Gaps of white space: the two outer gaps may be empty, a gap between two words may not. */
  predicate Gaps(gaps: seq<string>) {
    && (forall k :: 0 <= k < |gaps| ==> AllSpace(gaps[k]))
    && (forall k :: 0 < k < |gaps| - 1 ==> gaps[k] != [])
  }

  /** The white space around and between the fields of `s`. */
  function FieldGaps(s: string): (gaps: seq<string>)
    ensures |gaps| == |Fields(s)| + 1
  {
    if s == [] then [[]]
    else if IsSpace(s[0]) then
      var g := FieldGaps(s[1..]);
      [[s[0]] + g[0]] + g[1..]
    else
      FieldsOfWordStart(s);
      [[]] + FieldGaps(s[WordLength(s)..])
  }

  /**
   * `s` is its fields separated by white space: laid out with the gaps
   * FieldGaps finds, the fields give `s` back. There are no fields exactly
   * when `s` is all white space.
   */
  lemma {:induction false} FieldsSpaced(s: string)
    ensures Gaps(FieldGaps(s)) && Spaced(Fields(s), FieldGaps(s)) == s
    ensures Fields(s) == [] <==> AllSpace(s)
    decreases |s|
  {
    if s == [] {
    } else if IsSpace(s[0]) {
      FieldsSpaced(s[1..]);
      FieldsSpacedSkip(s);
    } else {
      var n := WordLength(s);
      FieldsOfWordStart(s);
      FieldsSpaced(s[n..]);
      FieldsSpacedWord(s, n);
    }
  }

  lemma {:induction false} FieldsSpacedSkip(s: string)
    requires |s| > 0 && IsSpace(s[0])
    requires Gaps(FieldGaps(s[1..])) && Spaced(Fields(s[1..]), FieldGaps(s[1..])) == s[1..]
    requires Fields(s[1..]) == [] <==> AllSpace(s[1..])
    ensures Gaps(FieldGaps(s)) && Spaced(Fields(s), FieldGaps(s)) == s
    ensures Fields(s) == [] <==> AllSpace(s)
  {
    var ws, g := Fields(s[1..]), FieldGaps(s[1..]);
    var gs := FieldGaps(s);
    assert ws == Fields(s) && gs == [[s[0]] + g[0]] + g[1..];
    assert AllSpace(g[0]);
    assert AllSpace(gs[0]) by {
      forall i | 0 <= i < |gs[0]| ensures IsSpace(gs[0][i]) {
        if i > 0 { assert gs[0][i] == g[0][i - 1]; }
      }
    }
    assert gs[1..] == g[1..];
    if ws == [] {
      assert Spaced(ws, gs) == [s[0]] + g[0];
    } else {
      assert Spaced(ws, gs) == ([s[0]] + g[0]) + ws[0] + Spaced(ws[1..], g[1..]);
      assert Spaced(ws, g) == g[0] + ws[0] + Spaced(ws[1..], g[1..]);
    }
    assert s == [s[0]] + s[1..];
    if AllSpace(s[1..]) {
      forall i | 0 <= i < |s| ensures IsSpace(s[i]) {
        if i > 0 { assert s[i] == s[1..][i - 1]; }
      }
    }
  }

  lemma {:induction false} FieldsSpacedWord(s: string, n: nat)
    requires |s| > 0 && !IsSpace(s[0]) && n == WordLength(s)
    requires Fields(s) == [s[..n]] + Fields(s[n..])
    requires Gaps(FieldGaps(s[n..])) && Spaced(Fields(s[n..]), FieldGaps(s[n..])) == s[n..]
    ensures Gaps(FieldGaps(s)) && Spaced(Fields(s), FieldGaps(s)) == s
    ensures Fields(s) != [] && !AllSpace(s)
  {
    var ws, g := Fields(s[n..]), FieldGaps(s[n..]);
    assert FieldGaps(s) == [[]] + g;
    SpacedCons(s[..n], ws, g);
    assert s == s[..n] + s[n..];
    assert n == |s| ==> s[n..] == [];
    assert ws != [] ==> n < |s| && IsSpace(s[n..][0]);
    GapsCons(ws, g);
    assert !IsSpace(s[0]);
  }

  /** A word in front of spaced words, with an empty gap before it. */
  lemma {:induction false} SpacedCons(w: string, ws: seq<string>, g: seq<string>)
    requires |g| == |ws| + 1
    ensures Spaced([w] + ws, [[]] + g) == w + Spaced(ws, g)
  {
    assert ([w] + ws)[1..] == ws && ([[]] + g)[1..] == g;
    assert [] + w == w;
  }

  /** Gaps stay gaps with an empty gap in front, when the first word is preceded by white space. */
  lemma {:induction false} GapsCons(ws: seq<string>, g: seq<string>)
    requires |g| == |ws| + 1 && Gaps(g) && AllWords(ws)
    requires ws != [] ==> Spaced(ws, g) != [] && IsSpace(Spaced(ws, g)[0])
    ensures Gaps([[]] + g)
  {
    if ws != [] {
      assert Spaced(ws, g) == g[0] + ws[0] + Spaced(ws[1..], g[1..]);
      assert |ws[0]| > 0 && !IsSpace(ws[0][0]);
      assert g[0] != [];
    }
    var h := [[]] + g;
    assert forall k :: 0 < k < |h| ==> h[k] == g[k - 1];
  }

  /** Leading white space does not change the fields. */
  lemma {:induction false} FieldsSkipSpaces(g: string, b: string)
    requires AllSpace(g)
    ensures Fields(g + b) == Fields(b)
  {
    if g != [] {
      assert g + b == [g[0]] + (g[1..] + b);
      FieldsSkipSpaces(g[1..], b);
      FieldsSkipSpace(g[0], g[1..] + b);
    } else {
      assert g + b == b;
    }
  }

  /** A word followed by nothing or by white space is the first field. */
  lemma {:induction false} FieldsWordThen(w: string, rest: string)
    requires IsWord(w) && (rest == [] || IsSpace(rest[0]))
    ensures Fields(w + rest) == [w] + Fields(rest)
  {
    if rest == [] {
      assert w + rest == w;
      FieldsOfWord(w);
      assert Fields(rest) == [];
    } else {
      assert rest == [rest[0]] + rest[1..];
      assert w + rest == w + [rest[0]] + rest[1..];
      FieldsAppend(w, rest[0], rest[1..]);
      FieldsSkipSpace(rest[0], rest[1..]);
    }
  }

  /**
   * The fields are the only way to read `s` as words separated by white
   * space: whatever words laid out with white-space gaps give `s`, they are
   * Fields(s).
   */
  lemma {:induction false} FieldsUnique(ws: seq<string>, gaps: seq<string>)
    requires |gaps| == |ws| + 1 && Gaps(gaps) && AllWords(ws)
    ensures Fields(Spaced(ws, gaps)) == ws
  {
    if ws == [] {
      FieldsSkipSpaces(gaps[0], []);
      assert gaps[0] + [] == gaps[0];
    } else {
      var rest := Spaced(ws[1..], gaps[1..]);
      assert Gaps(gaps[1..]) by {
        forall k | 0 < k < |gaps[1..]| - 1 ensures gaps[1..][k] != [] {
          assert gaps[1..][k] == gaps[k + 1];
        }
      }
      assert AllWords(ws[1..]) by {
        forall k | 0 <= k < |ws[1..]| ensures IsWord(ws[1..][k]) {
          assert ws[1..][k] == ws[k + 1];
        }
      }
      FieldsUnique(ws[1..], gaps[1..]);
      if |ws| > 1 {
        assert gaps[1] != [] && AllSpace(gaps[1]);
        assert rest == gaps[1] + ws[1..][0] + Spaced(ws[2..], gaps[2..]) by {
          assert ws[1..][1..] == ws[2..] && gaps[1..][1..] == gaps[2..];
        }
        assert rest[0] == gaps[1][0];
      } else {
        assert rest == gaps[1];
        assert rest == [] || IsSpace(rest[0]);
      }
      FieldsWordThen(ws[0], rest);
      assert Spaced(ws, gaps) == gaps[0] + (ws[0] + rest);
      FieldsSkipSpaces(gaps[0], ws[0] + rest);
      assert ws == [ws[0]] + ws[1..];
    }
  }

  /**
   * A line with no white space at either end has exactly one field when it
   * holds no white space at all, and then that field is the line.
   */
  lemma {:induction false} FieldsOfTrimmed(s: string)
    requires |s| > 0 && !IsSpace(s[0]) && !IsSpace(s[|s| - 1])
    ensures |Fields(s)| == 1 <==> forall i :: 0 <= i < |s| ==> !IsSpace(s[i])
    ensures |Fields(s)| == 1 ==> Fields(s) == [s]
  {
    var n := WordLength(s);
    FieldsOfWordStart(s);
    FieldsSpaced(s[n..]);
    assert n < |s| ==> s[n..][|s| - n - 1] == s[|s| - 1];
    assert n == |s| ==> s[..n] == s;
    if forall i :: 0 <= i < |s| ==> !IsSpace(s[i]) {
      FieldsOfWord(s);
    }
  }

  /** Index of the first occurrence of `c` in `s`, or |s| when there is none. */
  function IndexOf(s: string, c: char): (i: nat)
    ensures i <= |s|
    ensures i < |s| ==> s[i] == c
    ensures forall k :: 0 <= k < i ==> s[k] != c
  {
    if |s| == 0 then 0 else if s[0] == c then 0 else 1 + IndexOf(s[1..], c)
  }

  /** Joins pieces with one separator between neighbours. */
  function Join(pieces: seq<string>, sep: char): string
    requires |pieces| > 0
  {
    if |pieces| == 1 then pieces[0] else pieces[0] + [sep] + Join(pieces[1..], sep)
  }

  /** strings.Split with a one-rune separator; SplitFacts states what it gives. */
  function Split(s: string, sep: char): (r: seq<string>)
    ensures |r| > 0
    decreases |s|
  {
    var i := IndexOf(s, sep);
    if i == |s| then [s] else [s[..i]] + Split(s[i + 1..], sep)
  }

  /**
   * Split gives a single piece exactly when the separator does not occur, no
   * piece holds the separator, and joining the pieces with it gives the text
   * back.
   */
  lemma {:induction false} SplitFacts(s: string, sep: char)
    ensures |Split(s, sep)| == 1 <==> sep !in s
    ensures forall k :: 0 <= k < |Split(s, sep)| ==> sep !in Split(s, sep)[k]
    ensures Join(Split(s, sep), sep) == s
    decreases |s|
  {
    var i := IndexOf(s, sep);
    if i == |s| {
      assert forall k :: 0 <= k < |s| ==> s[k] != sep;
    } else {
      SplitFacts(s[i + 1..], sep);
      SplitStep(s, sep, i, Split(s[i + 1..], sep));
    }
  }

  lemma {:induction false} SplitStep(s: string, sep: char, i: nat, rest: seq<string>)
    requires i == IndexOf(s, sep) < |s| && rest == Split(s[i + 1..], sep)
    requires |rest| > 0 && Join(rest, sep) == s[i + 1..]
    requires forall k :: 0 <= k < |rest| ==> sep !in rest[k]
    ensures |Split(s, sep)| > 1 && sep in s
    ensures forall k :: 0 <= k < |Split(s, sep)| ==> sep !in Split(s, sep)[k]
    ensures Join(Split(s, sep), sep) == s
  {
    var r := Split(s, sep);
    assert r == [s[..i]] + rest;
    assert sep !in s[..i];
    assert r[1..] == rest;
    CutAt(s, i);
  }

  lemma {:induction false} CutAt(s: string, i: nat)
    requires i < |s|
    ensures s == s[..i] + [s[i]] + s[i + 1..]
  {
  }

  /** `t` occurs in `s` at offset `i`. */
  predicate OccursAt(s: string, t: string, i: nat) {
    i + |t| <= |s| && s[i..i + |t|] == t
  }

  /** strings.Contains. */
  function Contains(s: string, t: string): (r: bool)
    ensures r <==> exists i: nat :: OccursAt(s, t, i)
    decreases |s|
  {
    if t <= s then
      assert OccursAt(s, t, 0);
      true
    else if |s| == 0 then
      assert forall i: nat :: !OccursAt(s, t, i);
      false
    else
      var r := Contains(s[1..], t);
      assert forall i: nat :: OccursAt(s[1..], t, i) <==> OccursAt(s, t, i + 1) by {
        forall i: nat ensures OccursAt(s[1..], t, i) <==> OccursAt(s, t, i + 1) {
          if i + |t| <= |s| - 1 { assert s[1..][i..i + |t|] == s[i + 1..i + 1 + |t|]; }
        }
      }
      assert !OccursAt(s, t, 0);
      assert (exists i: nat :: OccursAt(s, t, i)) ==> exists i: nat :: OccursAt(s[1..], t, i) by {
        if exists i: nat :: OccursAt(s, t, i) {
          var i: nat :| OccursAt(s, t, i);
          assert i > 0;
          assert OccursAt(s[1..], t, i - 1);
        }
      }
      r
  }

  /** strings.TrimPrefix: removes `prefix` once, and only when `s` starts with it. */
  function TrimPrefix(s: string, prefix: string): (r: string)
    ensures prefix <= s ==> prefix + r == s
    ensures !(prefix <= s) ==> r == s
  {
    if prefix <= s then s[|prefix|..] else s
  }

  /** unicode.ToLower restricted to ASCII letters. */
  function LowerChar(c: char): (r: char)
    ensures !('A' <= r <= 'Z')
    ensures 'A' <= c <= 'Z' ==> r as int == c as int + 32
    ensures 'A' <= c <= 'Z' || r == c
  {
    if 'A' <= c <= 'Z' then (c as int + 32) as char else c
  }

  /** strings.ToLower, rune by rune. */
  function ToLower(s: string): (r: string)
    ensures |r| == |s| && forall i :: 0 <= i < |s| ==> r[i] == LowerChar(s[i])
  {
    seq(|s|, i requires 0 <= i < |s| => LowerChar(s[i]))
  }

  /** Every rune of `s` is already lower-case. */
  predicate IsLower(s: string) {
    forall i :: 0 <= i < |s| ==> LowerChar(s[i]) == s[i]
  }

  lemma {:induction false} ToLowerOfLower(s: string)
    requires IsLower(s)
    ensures ToLower(s) == s
  {
  }

  /** strings.ReplaceAll(s, ",", ""). */
  function RemoveCommas(s: string): (r: string)
    ensures ',' !in r
    ensures |r| <= |s|
  {
    if s == [] then [] else (if s[0] == ',' then [] else [s[0]]) + RemoveCommas(s[1..])
  }

  lemma {:induction false} RemoveCommasAppend(a: string, b: string)
    ensures RemoveCommas(a + b) == RemoveCommas(a) + RemoveCommas(b)
  {
    if a != [] {
      assert (a + b)[1..] == a[1..] + b;
      RemoveCommasAppend(a[1..], b);
    } else {
      assert a + b == b;
    }
  }

  /** A comma anywhere is dropped. */
  lemma {:induction false} RemoveCommaDropped(a: string, b: string)
    ensures RemoveCommas(a + [','] + b) == RemoveCommas(a + b)
  {
    var ra, rb := RemoveCommas(a), RemoveCommas(b);
    RemoveCommasAppend(a + [','], b);
    RemoveCommasAppend(a, [',']);
    assert RemoveCommas([',']) == [];
    assert RemoveCommas(a + [',']) == ra;
    RemoveCommasAppend(a, b);
  }

  /** Text without commas is unchanged. */
  lemma {:induction false} RemoveCommasWithout(s: string)
    ensures ',' !in s ==> RemoveCommas(s) == s
  {
    if s != [] {
      RemoveCommasWithout(s[1..]);
    }
  }
}

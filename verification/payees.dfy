/**
 * Payee normalisation: lower-case and trim a transaction description, then
 * delete every parenthesised group together with the `\s` runs around it
 * (the regular expression `\s*\(.*?\)\s*`, replaced by "").
 */
module Payees {
  import opened Wrappers
  import opened GoStrings

  /** Length of the run of `\s` runes at the start of `s` (greedy `\s*`). */
  function SpaceRun(s: string): (n: nat)
    ensures n <= |s|
    ensures forall i :: 0 <= i < n ==> IsPerlSpace(s[i])
    ensures n < |s| ==> !IsPerlSpace(s[n])
  {
    if |s| > 0 && IsPerlSpace(s[0]) then 1 + SpaceRun(s[1..]) else 0
  }

  /**
   * Where the lazy `.*?\)` stops: the offset of the first ')' of `s`, provided
   * `.` can cross every rune before it. Without the `s` flag `.` does not
   * match '\n'; `dotAll` is that flag.
   */
  function CloseOffset(s: string, dotAll: bool): (r: Option<nat>)
    ensures r.Some? ==> r.value < |s| && s[r.value] == ')'
    ensures r.Some? ==> forall i :: 0 <= i < r.value ==> s[i] != ')' && (dotAll || s[i] != '\n')
    ensures dotAll ==> (r.None? <==> ')' !in s)
  {
    if |s| == 0 then None
    else if s[0] == ')' then Some(0)
    else if !dotAll && s[0] == '\n' then None
    else
      match CloseOffset(s[1..], dotAll)
      case None => None
      case Some(k) => Some(k + 1)
  }

  /**
   * Length of the leftmost-first match of `\s*\(.*?\)\s*` that starts at
   * offset 0 of `s`, or 0 when no match starts there (every match is at
   * least two runes long).
   */
  function MatchLength(s: string, dotAll: bool): (n: nat)
    ensures n <= |s|
    ensures n > 0 ==> n >= 2
    ensures n > 0 ==> SpaceRun(s) < |s| && s[SpaceRun(s)] == '(' && CloseOffset(s[SpaceRun(s) + 1..], dotAll).Some?
  {
    var lead := SpaceRun(s);
    if lead < |s| && s[lead] == '(' then
      match CloseOffset(s[lead + 1..], dotAll)
      case None => 0
      case Some(c) =>
        var e := lead + c + 2;
        e + SpaceRun(s[e..])
    else
      0
  }

  /**
   * A ')' that `.` can reach is found: when no rune before some ')' stops
   * `.`, the lazy `.*?\)` stops at that ')' or at an earlier one.
   */
  lemma {:induction false} CloseOffsetFinds(s: string, x: nat, dotAll: bool)
    requires x < |s| && s[x] == ')'
    requires forall k :: 0 <= k < x ==> dotAll || s[k] != '\n'
    ensures CloseOffset(s, dotAll).Some? && CloseOffset(s, dotAll).value <= x
  {
    if s[0] != ')' {
      CloseOffsetFinds(s[1..], x - 1, dotAll);
    }
  }

  /**
   * `t` is, as a whole, a match of `\s*\(.*?\)\s*` whose '(' is at `i` and
   * whose ')' is at `j`: `\s` runes before `i` and after `j`, and between
   * them no rune that `.` does not match.
   */
  predicate GroupShape(t: string, i: nat, j: nat, dotAll: bool) {
    && i < j < |t| && t[i] == '(' && t[j] == ')'
    && (forall k :: 0 <= k < i ==> IsPerlSpace(t[k]))
    && (forall k :: i < k < j ==> dotAll || t[k] != '\n')
    && (forall k :: j < k < |t| ==> IsPerlSpace(t[k]))
  }

  /**
   * Some prefix of `s` matches the pattern exactly when MatchLength is
   * positive. The prefix MatchLength measures is the leftmost-first match:
   * a match whose lazy `.*?` holds no ')', and whose trailing `\s*` is not
   * followed by another `\s` rune.
   */
  lemma {:induction false} MatchLengthFacts(s: string, dotAll: bool)
    ensures (exists m: nat, i: nat, j: nat :: m <= |s| && GroupShape(s[..m], i, j, dotAll)) <==> MatchLength(s, dotAll) > 0
    ensures MatchLength(s, dotAll) > 0 ==>
      exists i: nat, j: nat :: GroupShape(s[..MatchLength(s, dotAll)], i, j, dotAll) && forall k :: i < k < j ==> s[k] != ')'
    ensures 0 < MatchLength(s, dotAll) < |s| ==> !IsPerlSpace(s[MatchLength(s, dotAll)])
  {
    if exists m: nat, i: nat, j: nat :: m <= |s| && GroupShape(s[..m], i, j, dotAll) {
      var m: nat, i: nat, j: nat :| m <= |s| && GroupShape(s[..m], i, j, dotAll);
      ShapeFound(s, m, i, j, dotAll);
    }
    if MatchLength(s, dotAll) > 0 {
      MatchShape(s, dotAll);
      if MatchLength(s, dotAll) < |s| {
        MatchEnd(s, dotAll);
      }
    }
  }

  /** A prefix of `s` shaped like a match means MatchLength finds one. */
  lemma {:induction false} ShapeFound(s: string, m: nat, i: nat, j: nat, dotAll: bool)
    requires m <= |s| && GroupShape(s[..m], i, j, dotAll)
    ensures MatchLength(s, dotAll) > 0
  {
    var t := s[..m];
    assert forall k :: 0 <= k < m ==> t[k] == s[k];
    assert SpaceRun(s) == i;
    var u := s[i + 1..];
    assert forall k :: 0 <= k < j - i - 1 ==> u[k] == t[i + 1 + k];
    assert u[j - i - 1] == t[j];
    CloseOffsetFinds(u, j - i - 1, dotAll);
  }

  /** The prefix MatchLength measures has the shape of a match, with no ')' inside its group. */
  lemma {:induction false} MatchShape(s: string, dotAll: bool)
    requires MatchLength(s, dotAll) > 0
    ensures exists i: nat, j: nat :: GroupShape(s[..MatchLength(s, dotAll)], i, j, dotAll) && forall k :: i < k < j ==> s[k] != ')'
  {
    var lead := SpaceRun(s);
    var c := CloseOffset(s[lead + 1..], dotAll).value;
    var j := lead + 1 + c;
    MatchLengthIs(s, dotAll, lead, c);
    InnerPart(s, lead, c, dotAll);
    TailPart(s, j + 1);
    ShapeOfParts(s, MatchLength(s, dotAll), lead, j, dotAll);
  }

  lemma {:induction false} MatchLengthIs(s: string, dotAll: bool, lead: nat, c: nat)
    requires lead == SpaceRun(s) < |s| && s[lead] == '('
    requires CloseOffset(s[lead + 1..], dotAll) == Some(c)
    ensures lead + c + 2 <= |s|
    ensures MatchLength(s, dotAll) == lead + c + 2 + SpaceRun(s[lead + c + 2..])
  {
  }

  /** The trailing `\s*` of a match takes every `\s` rune it can. */
  lemma {:induction false} MatchEnd(s: string, dotAll: bool)
    requires 0 < MatchLength(s, dotAll) < |s|
    ensures !IsPerlSpace(s[MatchLength(s, dotAll)])
  {
    var lead := SpaceRun(s);
    var c := CloseOffset(s[lead + 1..], dotAll).value;
    TailPart(s, lead + c + 2);
  }

  lemma {:induction false} InnerPart(s: string, lead: nat, c: nat, dotAll: bool)
    requires lead < |s| && CloseOffset(s[lead + 1..], dotAll) == Some(c)
    ensures lead + 1 + c < |s| && s[lead + 1 + c] == ')'
    ensures forall k :: lead < k < lead + 1 + c ==> (dotAll || s[k] != '\n') && s[k] != ')'
  {
    var u := s[lead + 1..];
    assert forall k :: 0 <= k < |u| ==> u[k] == s[lead + 1 + k];
    forall k | lead < k < lead + 1 + c ensures (dotAll || s[k] != '\n') && s[k] != ')' {
      assert s[k] == u[k - lead - 1];
    }
  }

  lemma {:induction false} TailPart(s: string, e: nat)
    requires e <= |s|
    ensures e + SpaceRun(s[e..]) <= |s|
    ensures forall k :: e <= k < e + SpaceRun(s[e..]) ==> IsPerlSpace(s[k])
    ensures e + SpaceRun(s[e..]) < |s| ==> !IsPerlSpace(s[e + SpaceRun(s[e..])])
  {
    var u := s[e..];
    assert forall k :: 0 <= k < |u| ==> u[k] == s[e + k];
  }

  lemma {:induction false} ShapeOfParts(s: string, n: nat, i: nat, j: nat, dotAll: bool)
    requires i < j < n <= |s| && s[i] == '(' && s[j] == ')'
    requires forall k :: 0 <= k < i ==> IsPerlSpace(s[k])
    requires forall k :: i < k < j ==> (dotAll || s[k] != '\n') && s[k] != ')'
    requires forall k :: j < k < n ==> IsPerlSpace(s[k])
    ensures exists i: nat, j: nat :: GroupShape(s[..n], i, j, dotAll) && forall k :: i < k < j ==> s[k] != ')'
  {
    assert forall k :: 0 <= k < n ==> s[..n][k] == s[k];
    assert GroupShape(s[..n], i, j, dotAll);
  }

  /** regexp.ReplaceAllString(s, "") for `\s*\(.*?\)\s*`: scan left to right, delete each match. */
  function StripGroups(s: string, dotAll: bool): (r: string)
    ensures |r| <= |s|
    decreases |s|
  {
    if s == [] then []
    else
      var n := MatchLength(s, dotAll);
      if n > 0 then StripGroups(s[n..], dotAll) else [s[0]] + StripGroups(s[1..], dotAll)
  }

  /** Deleting groups only removes runes: whatever holds of every rune of `s` holds of the result's. */
  lemma {:induction false} StripGroupsKeeps(s: string, dotAll: bool, p: char -> bool)
    requires forall i :: 0 <= i < |s| ==> p(s[i])
    ensures forall i :: 0 <= i < |StripGroups(s, dotAll)| ==> p(StripGroups(s, dotAll)[i])
    decreases |s|
  {
    if s != [] {
      var n := MatchLength(s, dotAll);
      if n > 0 {
        StripGroupsKeeps(s[n..], dotAll, p);
      } else {
        StripGroupsKeeps(s[1..], dotAll, p);
        KeepFirst(s, dotAll);
        ConsKeeps(s[0], StripGroups(s[1..], dotAll), p);
      }
    }
  }

  /** No '(' has a ')' anywhere after it, so the pattern has nothing left to match. */
  predicate NoGroup(s: string) {
    forall i, j :: 0 <= i < j < |s| && s[i] == '(' ==> s[j] != ')'
  }

  /** normalizePayee as written: trim, lower-case, delete the groups (`.` stops at '\n'). */
  function NormalizePayeeAsWritten(s: string): (r: string)
    ensures |r| <= |s|
    ensures IsLower(r)
  {
    StripGroupsLower(ToLower(TrimSpace(s)), false);
    StripGroups(ToLower(TrimSpace(s)), false)
  }

  /** Without a line break, the `s` flag makes no difference to where `.*?\)` stops. */
  lemma {:induction false} CloseOffsetSingleLine(s: string)
    requires '\n' !in s
    ensures CloseOffset(s, false) == CloseOffset(s, true)
  {
    if |s| > 0 && s[0] != ')' {
      assert '\n' !in s[1..] by {
        assert forall k :: 0 <= k < |s| - 1 ==> s[1..][k] == s[k + 1];
      }
      CloseOffsetSingleLine(s[1..]);
    }
  }

  /** Without a line break, the `s` flag makes no difference to the groups deleted. */
  lemma {:induction false} StripGroupsSingleLine(s: string)
    requires '\n' !in s
    ensures StripGroups(s, false) == StripGroups(s, true)
    decreases |s|
  {
    if s != [] {
      MatchLengthSingleLine(s);
      var n := MatchLength(s, true);
      if n > 0 {
        NoBreakAfter(s, n);
        StripGroupsSingleLine(s[n..]);
      } else {
        NoBreakAfter(s, 1);
        StripGroupsSingleLine(s[1..]);
      }
    }
  }

  lemma {:induction false} MatchLengthSingleLine(s: string)
    requires '\n' !in s
    ensures MatchLength(s, false) == MatchLength(s, true)
  {
    var lead := SpaceRun(s);
    if lead < |s| && s[lead] == '(' {
      NoBreakAfter(s, lead + 1);
      CloseOffsetSingleLine(s[lead + 1..]);
    }
    MatchLengthSameClose(s);
  }

  lemma {:induction false} MatchLengthSameClose(s: string)
    requires SpaceRun(s) < |s| && s[SpaceRun(s)] == '(' ==>
      CloseOffset(s[SpaceRun(s) + 1..], false) == CloseOffset(s[SpaceRun(s) + 1..], true)
    ensures MatchLength(s, false) == MatchLength(s, true)
  {
  }

  lemma {:induction false} NoBreakAfter(s: string, i: nat)
    requires '\n' !in s && i <= |s|
    ensures '\n' !in s[i..]
  {
    assert forall k :: 0 <= k < |s| - i ==> s[i..][k] == s[i + k];
  }

  /** Trimming and lower-casing bring in no line break. */
  lemma {:induction false} NoBreakLowerTrim(s: string)
    requires '\n' !in s
    ensures '\n' !in ToLower(TrimSpace(s))
  {
    var t := TrimSpace(s);
    TrimSpaceFacts(s);
    var at := TrimStart(s);
    assert forall k :: 0 <= k < |t| ==> t[k] == s[at + k];
    assert forall k :: 0 <= k < |t| ==> ToLower(t)[k] == LowerChar(t[k]) && t[k] != '\n';
  }

  /**
   * On a description without a line break the code as written deletes every
   * group, and it differs from the corrected definition only by the final
   * trim.
   */
  lemma {:induction false} NormalizePayeeSingleLine(s: string)
    requires '\n' !in s
    ensures NoGroup(NormalizePayeeAsWritten(s))
    ensures NormalizePayee(s) == TrimSpace(NormalizePayeeAsWritten(s))
  {
    var l := ToLower(TrimSpace(s));
    NoBreakLowerTrim(s);
    StripGroupsSingleLine(l);
    StripGroupsNoGroup(l);
  }

  /**
   * normalizePayee with the two gaps closed: a group may span a line break,
   * and the white space a deleted group leaves at either end is trimmed.
   */
  function NormalizePayee(s: string): string {
    TrimSpace(StripGroups(ToLower(TrimSpace(s)), true))
  }

  /**
   * A normalised payee has no white space at either end, no capital letter
   * and no group left.
   */
  lemma {:induction false} NormalizePayeeFacts(s: string)
    ensures NoEdgeSpace(NormalizePayee(s))
    ensures IsLower(NormalizePayee(s)) && NoGroup(NormalizePayee(s))
  {
    var l := ToLower(TrimSpace(s));
    var y := StripGroups(l, true);
    assert NormalizePayee(s) == TrimSpace(y);
    StripGroupsLower(l, true);
    StripGroupsNoGroup(l);
    TrimKeeps(y);
  }

  /** Trimming a lower-case, group-free text keeps it so. */
  lemma {:induction false} TrimKeeps(y: string)
    requires IsLower(y) && NoGroup(y)
    ensures IsLower(TrimSpace(y)) && NoGroup(TrimSpace(y))
  {
    TrimSpaceFacts(y);
    SliceKeeps(y, TrimSpace(y));
  }

  lemma {:induction false} ConsKeeps(c: char, r: string, p: char -> bool)
    requires p(c) && forall i :: 0 <= i < |r| ==> p(r[i])
    ensures forall i :: 0 <= i < |[c] + r| ==> p(([c] + r)[i])
  {
  }

  /** Lower-case text stays lower-case when groups are deleted. */
  lemma {:induction false} StripGroupsLower(s: string, dotAll: bool)
    requires IsLower(s)
    ensures IsLower(StripGroups(s, dotAll))
  {
    StripGroupsKeeps(s, dotAll, c => LowerChar(c) == c);
  }

  /** Text without ')' keeps none after the groups are deleted. */
  lemma {:induction false} StripGroupsNoClose(s: string, dotAll: bool)
    requires ')' !in s
    ensures ')' !in StripGroups(s, dotAll)
  {
    StripGroupsKeeps(s, dotAll, c => c != ')');
  }

  /** With `.` crossing line breaks, the deletion leaves no group behind. */
  lemma {:induction false} StripGroupsNoGroup(s: string)
    ensures NoGroup(StripGroups(s, true))
    decreases |s|
  {
    if s != [] {
      var n := MatchLength(s, true);
      if n > 0 {
        StripGroupsNoGroup(s[n..]);
      } else {
        StripGroupsNoGroup(s[1..]);
        if s[0] == '(' {
          assert SpaceRun(s) == 0;
          assert ')' !in s[1..];
          StripGroupsNoClose(s[1..], true);
        }
        ConsNoGroup(s[0], StripGroups(s[1..], true));
      }
    }
  }

  lemma {:induction false} ConsNoGroup(c: char, rest: string)
    requires NoGroup(rest) && (c == '(' ==> ')' !in rest)
    ensures NoGroup([c] + rest)
  {
    var r := [c] + rest;
    forall i, j | 0 <= i < j < |r| && r[i] == '(' ensures r[j] != ')' {
      if i > 0 {
        assert r[i] == rest[i - 1] && r[j] == rest[j - 1];
      } else {
        assert r[j] == rest[j - 1];
      }
    }
  }

  /** Text without a group is left as it is. */
  lemma {:induction false} StripGroupsOfNoGroup(s: string, dotAll: bool)
    requires NoGroup(s)
    ensures StripGroups(s, dotAll) == s
    decreases |s|
  {
    if s != [] {
      NoGroupNoMatch(s, dotAll);
      assert NoGroup(s[1..]);
      StripGroupsOfNoGroup(s[1..], dotAll);
      assert s == [s[0]] + s[1..];
    }
  }

  /** Text without a group holds no match of the pattern at its start. */
  lemma {:induction false} NoGroupNoMatch(s: string, dotAll: bool)
    requires NoGroup(s)
    ensures MatchLength(s, dotAll) == 0
  {
    var lead := SpaceRun(s);
    if lead < |s| && s[lead] == '(' && CloseOffset(s[lead + 1..], dotAll).Some? {
      assert false;
    }
  }

  /** A contiguous piece of a lower-case, group-free text is lower-case and group-free. */
  lemma {:induction false} SliceKeeps(y: string, r: string)
    requires IsLower(y) && NoGroup(y)
    requires exists i: nat :: OccursAt(y, r, i)
    ensures IsLower(r) && NoGroup(r)
  {
    var k: nat :| OccursAt(y, r, k);
    assert forall i :: 0 <= i < |r| ==> r[i] == y[k + i];
  }

  /** Normalising a normalised payee changes nothing. */
  lemma {:induction false} NormalizePayeeIdempotent(s: string)
    ensures NormalizePayee(NormalizePayee(s)) == NormalizePayee(s)
  {
    var x := NormalizePayee(s);
    NormalizePayeeFacts(s);
    assert |x| > 0 ==> !IsSpace(x[0]) && !IsSpace(x[|x| - 1]);
    TrimSpaceOfTrimmed(x);
    ToLowerOfLower(x);
    StripGroupsOfNoGroup(x, true);
    assert NormalizePayee(x) == TrimSpace(StripGroups(ToLower(TrimSpace(x)), true));
  }

  /**
   * As written, normalising twice can differ from normalising once: a group
   * whose '(' is cut off from its ')' by a line break survives the first pass
   * as "()", which the second pass deletes.
   */
  lemma {:induction false} AsWrittenNotIdempotent(s: string)
    requires s == "(\n(x))"
    ensures NormalizePayeeAsWritten(s) == "()"
    ensures NormalizePayeeAsWritten(NormalizePayeeAsWritten(s)) == ""
  {
    NewlineExample(s);
    EmptyGroupExample(NormalizePayeeAsWritten(s));
  }

  /**
   * As written, a vertical tab before a deleted group is white space to the
   * trim but not to `\s`, so it survives the first pass and the second pass
   * trims it.
   */
  lemma {:induction false} AsWrittenKeepsVerticalTab(s: string)
    requires s == "a\U{0B}(x)"
    ensures NormalizePayeeAsWritten(s) == "a\U{0B}"
    ensures NormalizePayeeAsWritten(NormalizePayeeAsWritten(s)) == "a"
  {
    VerticalTabExample(s);
    VerticalTabTrimmed(NormalizePayeeAsWritten(s));
  }

  lemma {:induction false} NewlineExample(s: string)
    requires s == "(\n(x))"
    ensures NormalizePayeeAsWritten(s) == "()"
  {
    assert |s| > 0 && !IsSpace(s[0]) && !IsSpace(s[|s| - 1]) && IsLower(s);
    AsWrittenOfPlain(s);
    NewlineStrip(s);
  }

  /** Text with no white space at either end and no capitals is only stripped of its groups. */
  lemma {:induction false} AsWrittenOfPlain(s: string)
    requires |s| > 0 ==> !IsSpace(s[0]) && !IsSpace(s[|s| - 1])
    requires IsLower(s)
    ensures NormalizePayeeAsWritten(s) == StripGroups(s, false)
  {
    TrimSpaceOfTrimmed(s);
    ToLowerOfLower(s);
  }

  lemma {:induction false} NewlineStrip(s: string)
    requires s == "(\n(x))"
    ensures StripGroups(s, false) == "()"
  {
    NoMatchAtOpenNewline(s);
    KeepFirst(s, false);
    var t := s[1..];
    assert t == "\n(x))";
    NewlineGroupMatch(t);
    DropMatch(t, false);
    var u := t[4..];
    assert u == ")";
    KeepAll(u, false);
    assert [s[0]] + u == "()";
  }

  lemma {:induction false} NoMatchAtOpenNewline(s: string)
    requires s == "(\n(x))"
    ensures MatchLength(s, false) == 0
  {
    assert SpaceRun(s) == 0;
    assert CloseOffset(s[1..], false) == None;
  }

  lemma {:induction false} NewlineGroupMatch(t: string)
    requires t == "\n(x))"
    ensures MatchLength(t, false) == 4
  {
    assert SpaceRun(t[1..]) == 0;
    assert SpaceRun(t) == 1;
    assert t[2..] == "x))";
    assert CloseOffset(t[3..], false) == Some(0);
    assert CloseOffset(t[2..], false) == Some(1);
    assert t[4..] == ")";
    assert SpaceRun(t[4..]) == 0;
  }

  lemma {:induction false} EmptyGroupExample(s: string)
    requires s == "()"
    ensures NormalizePayeeAsWritten(s) == ""
  {
    assert !IsSpace(s[0]) && !IsSpace(s[|s| - 1]) && IsLower(s);
    AsWrittenOfPlain(s);
    assert SpaceRun(s) == 0;
    assert CloseOffset(s[1..], false) == Some(0);
    assert s[2..] == [];
    assert MatchLength(s, false) == 2;
    DropMatch(s, false);
  }

  lemma {:induction false} VerticalTabExample(s: string)
    requires s == "a\U{0B}(x)"
    ensures NormalizePayeeAsWritten(s) == "a\U{0B}"
  {
    VerticalTabPlain(s);
    AsWrittenOfPlain(s);
    VerticalTabPieces(s);
  }

  lemma {:induction false} VerticalTabPlain(s: string)
    requires s == "a\U{0B}(x)"
    ensures !IsSpace(s[0]) && !IsSpace(s[|s| - 1]) && IsLower(s)
  {
  }

  lemma {:induction false} VerticalTabPieces(s: string)
    requires s == "a\U{0B}(x)"
    ensures StripGroups(s, false) == "a\U{0B}"
  {
    var w, g := s[..2], s[2..];
    assert w == "a\U{0B}" && g == "(x)" && s == w + g;
    VerticalTabStrip(w, g);
  }

  lemma {:induction false} VerticalTabStrip(w: string, g: string)
    requires w == "a\U{0B}" && g == "(x)"
    ensures StripGroups(w + g, false) == w
  {
    assert forall i :: 0 <= i < |w| ==> !IsPerlSpace(w[i]) && w[i] != '(';
    KeepPlain(w, g, false);
    GroupMatch(g, false);
    DropMatch(g, false);
    assert g[3..] == [];
    assert w + [] == w;
  }

  lemma {:induction false} GroupMatch(t: string, dotAll: bool)
    requires t == "(x)"
    ensures MatchLength(t, dotAll) == 3
  {
    assert SpaceRun(t) == 0;
    assert CloseOffset(t[2..], dotAll) == Some(0);
    assert CloseOffset(t[1..], dotAll) == Some(1);
    assert t[3..] == [];
  }

  lemma {:induction false} VerticalTabTrimmed(s: string)
    requires s == "a\U{0B}"
    ensures NormalizePayeeAsWritten(s) == "a"
  {
    assert TrimLeft(s) == s;
    assert s[..1] == "a";
    assert TrimRight(s) == s[..1];
    var a := TrimSpace(s);
    assert a == "a";
    ToLowerOfLower(a);
    KeepAll(a, false);
  }

  /** A match at the start is deleted and the scan resumes after it. */
  lemma {:induction false} DropMatch(s: string, dotAll: bool)
    requires MatchLength(s, dotAll) > 0
    ensures StripGroups(s, dotAll) == StripGroups(s[MatchLength(s, dotAll)..], dotAll)
  {
  }

  /** Without a match at the start, the first rune is kept. */
  lemma {:induction false} KeepFirst(s: string, dotAll: bool)
    requires |s| > 0 && MatchLength(s, dotAll) == 0
    ensures StripGroups(s, dotAll) == [s[0]] + StripGroups(s[1..], dotAll)
  {
  }

  /** A single rune other than '(' is kept. */
  lemma {:induction false} KeepAll(s: string, dotAll: bool)
    requires |s| == 1 && s[0] != '('
    ensures StripGroups(s, dotAll) == s
  {
    assert SpaceRun(s) <= 1;
    KeepFirst(s, dotAll);
    assert s[1..] == [];
  }

  /** "Coffee Shop (ref 42)" is the payee "coffee shop". */
  lemma {:induction false} NormalizePayeeExample(s: string)
    requires s == "Coffee Shop (ref 42)"
    ensures NormalizePayee(s) == "coffee shop"
  {
    TrimSpaceOfTrimmed(s);
    LowerExample(s);
    var l := ToLower(s);
    StripExample(l);
    var r := StripGroups(l, true);
    TrimSpaceOfTrimmed(r);
  }

  /** As written, "Coffee Shop (ref 42)" is also the payee "coffee shop": the `\s*` before the group takes the space. */
  lemma {:induction false} NormalizePayeeAsWrittenExample(s: string)
    requires s == "Coffee Shop (ref 42)"
    ensures NormalizePayeeAsWritten(s) == "coffee shop"
  {
    TrimSpaceOfTrimmed(s);
    LowerExample(s);
    var l := ToLower(s);
    assert '\n' !in l;
    StripGroupsSingleLine(l);
    StripExample(l);
  }

  lemma {:induction false} LowerExample(s: string)
    requires s == "Coffee Shop (ref 42)"
    ensures ToLower(s) == "coffee shop (ref 42)"
  {
    var l := "coffee shop (ref 42)";
    forall i | 0 <= i < |s| ensures ToLower(s)[i] == l[i] {
      if i == 0 || i == 7 {
        assert ToLower(s)[i] == LowerChar(s[i]);
      }
    }
  }

  lemma {:induction false} StripExample(l: string)
    requires l == "coffee shop (ref 42)"
    ensures StripGroups(l, true) == "coffee shop"
  {
    ExampleSplit(l);
    StripPieces(l[..6], l[7..11], l[11..]);
  }

  lemma {:induction false} ExampleSplit(l: string)
    requires l == "coffee shop (ref 42)"
    ensures l[..6] == "coffee" && l[7..11] == "shop" && l[11..] == " (ref 42)"
    ensures l == l[..6] + ([' '] + (l[7..11] + l[11..]))
    ensures l[..6] + [' '] + l[7..11] == "coffee shop"
  {
    assert l[6] == ' ';
    assert l[..6] + [' '] + l[7..11] == l[..11];
  }

  lemma {:induction false} StripPieces(w1: string, w2: string, g: string)
    requires w1 == "coffee" && w2 == "shop" && g == " (ref 42)"
    ensures StripGroups(w1 + ([' '] + (w2 + g)), true) == w1 + [' '] + w2
  {
    PlainWord(w1);
    StripSpaceWordGroup(w2, g);
    KeepPlain(w1, [' '] + (w2 + g), true);
    assert w1 + ([' '] + w2) == w1 + [' '] + w2;
  }

  lemma {:induction false} StripSpaceWordGroup(w2: string, g: string)
    requires w2 == "shop" && g == " (ref 42)"
    ensures StripGroups([' '] + (w2 + g), true) == [' '] + w2
  {
    var t := [' '] + (w2 + g);
    SpaceThenWord(t, w2, g);
    StripWordGroup(w2, g);
    KeepCons(' ', w2 + g, true);
  }

  /** A rune that starts no match is kept in front of what the rest strips to. */
  lemma {:induction false} KeepCons(c: char, rest: string, dotAll: bool)
    requires MatchLength([c] + rest, dotAll) == 0
    ensures StripGroups([c] + rest, dotAll) == [c] + StripGroups(rest, dotAll)
  {
    assert ([c] + rest)[1..] == rest;
  }

  lemma {:induction false} StripWordGroup(w2: string, g: string)
    requires w2 == "shop" && g == " (ref 42)"
    ensures StripGroups(w2 + g, true) == w2
  {
    PlainWord(w2);
    SpaceGroupMatch(g);
    DropMatch(g, true);
    assert g[9..] == [];
    KeepPlain(w2, g, true);
    assert w2 + [] == w2;
  }

  lemma {:induction false} PlainWord(w: string)
    requires w == "coffee" || w == "shop"
    ensures forall i :: 0 <= i < |w| ==> !IsPerlSpace(w[i]) && w[i] != '('
  {
  }

  lemma {:induction false} SpaceGroupMatch(g: string)
    requires g == " (ref 42)"
    ensures MatchLength(g, true) == 9
  {
    assert SpaceRun(g[1..]) == 0;
    assert SpaceRun(g) == 1;
    var w := g[2..8];
    assert g[2..] == w + ")";
    CloseAt(w, true);
    assert g[9..] == [];
  }

  lemma {:induction false} SpaceThenWord(t: string, w: string, g: string)
    requires |w| > 0 && w[0] == 's' && t == [' '] + (w + g)
    ensures MatchLength(t, true) == 0
  {
    assert SpaceRun(t[1..]) == 0;
    assert SpaceRun(t) == 1;
  }

  /** The lazy `.*?\)` stops at the first ')' after a stretch that holds none. */
  lemma {:induction false} CloseAt(w: string, dotAll: bool)
    requires forall i :: 0 <= i < |w| ==> w[i] != ')' && w[i] != '\n'
    ensures CloseOffset(w + ")", dotAll) == Some(|w|)
  {
    if w != [] {
      assert (w + ")")[1..] == w[1..] + ")";
      CloseAt(w[1..], dotAll);
    } else {
      assert w + ")" == ")";
    }
  }

  /** A run with no `\s` and no '(' is kept as it is, and the scan resumes after it. */
  lemma {:induction false} KeepPlain(w: string, t: string, dotAll: bool)
    requires forall i :: 0 <= i < |w| ==> !IsPerlSpace(w[i]) && w[i] != '('
    ensures StripGroups(w + t, dotAll) == w + StripGroups(t, dotAll)
  {
    if w != [] {
      var s := w + t;
      assert SpaceRun(s) == 0;
      assert MatchLength(s, dotAll) == 0;
      assert s[1..] == w[1..] + t;
      KeepPlain(w[1..], t, dotAll);
      var x := StripGroups(t, dotAll);
      KeepFirst(s, dotAll);
      assert StripGroups(s, dotAll) == [w[0]] + (w[1..] + x);
      ConsAppend(w, x);
    } else {
      assert w + t == t;
    }
  }

  lemma {:induction false} ConsAppend(w: string, x: string)
    requires |w| > 0
    ensures [w[0]] + (w[1..] + x) == w + x
  {
  }
}

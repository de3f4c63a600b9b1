/** Structural descriptors: how a mark picked by vision is written into a
    cached plan and found again on replay. The regex engine is a parameter. */
module Descriptors {
  import opened Wrappers

  /** `re.search`: whether the pattern is found, or None when it does not compile. */
  type Regex = (string, string) -> Option<bool>

  /** One numbered element of the page. A missing attribute reads as "". */
  datatype Mark = Mark(
    markId: int, role: string, href: string, name: string, placeholder: string, region: string)

  /** An empty field filters nothing. */
  datatype Pattern = Pattern(role: string, href: string, name: string, placeholder: string, region: string)

  datatype Descriptor = Descriptor(pattern: Pattern, ordinal: int)

  /** A pattern that does not compile filters nothing. */
  predicate Found(re: Regex, pattern: string, text: string) {
    pattern == "" || re(pattern, text) != Some(false)
  }

  predicate Fits(re: Regex, p: Pattern, m: Mark) {
    && (p.role == "" || m.role == p.role)
    && Found(re, p.href, m.href)
    && Found(re, p.name, m.name)
    && Found(re, p.placeholder, m.placeholder)
    && (p.region == "" || m.region == p.region)
  }

  function Filter(re: Regex, marks: seq<Mark>, p: Pattern): (r: seq<Mark>)
    ensures forall m :: m in r <==> m in marks && Fits(re, p, m)
  {
    if marks == [] then []
    else
      var front := Filter(re, marks[..|marks| - 1], p);
      if Fits(re, p, marks[|marks| - 1]) then front + [marks[|marks| - 1]] else front
  }

  method FilterByDescriptor(re: Regex, marks: seq<Mark>, p: Pattern) returns (out: seq<Mark>)
    ensures out == Filter(re, marks, p)
    ensures forall m :: m in out <==>
              && m in marks
              && (p.role == "" || m.role == p.role) && (p.region == "" || m.region == p.region)
              && (p.href == "" || re(p.href, m.href) != Some(false))
              && (p.name == "" || re(p.name, m.name) != Some(false))
              && (p.placeholder == "" || re(p.placeholder, m.placeholder) != Some(false))
  {
    out := [];
    for i := 0 to |marks|
      invariant out == Filter(re, marks[..i], p)
    {
      assert marks[..i + 1][..i] == marks[..i];
      var m := marks[i];
      if p.role != "" && m.role != p.role {
        continue;
      }
      if p.href != "" && re(p.href, m.href) == Some(false) {
        continue;
      }
      if p.name != "" && re(p.name, m.name) == Some(false) {
        continue;
      }
      if p.placeholder != "" && re(p.placeholder, m.placeholder) == Some(false) {
        continue;
      }
      if p.region != "" && m.region != p.region {
        continue;
      }
      out := out + [m];
    }
    assert marks[..|marks|] == marks;
  }

  /** `_match_descriptor`: the mark at the recorded position among those that fit. */
  function Match(re: Regex, d: Descriptor, marks: seq<Mark>): Option<Mark> {
    var candidates := Filter(re, marks, d.pattern);
    if 0 <= d.ordinal < |candidates| then Some(candidates[d.ordinal]) else None
  }

  /** `list.index`: the first equal element. */
  function Index(m: Mark, s: seq<Mark>): (i: nat)
    requires m in s
    ensures i < |s| && s[i] == m && forall k :: 0 <= k < i ==> s[k] != m
  {
    if s[0] == m then 0 else 1 + Index(m, s[1..])
  }

  function SameRole(marks: seq<Mark>, role: string): seq<Mark> {
    if marks == [] then []
    else
      var front := SameRole(marks[..|marks| - 1], role);
      if marks[|marks| - 1].role == role then front + [marks[|marks| - 1]] else front
  }

  /** What vision proposes, with the role of the chosen mark if it has one. */
  function PatternFor(mark: Mark, hint: Pattern): Pattern {
    hint.(role := if mark.role != "" then mark.role else hint.role)
  }

  /** `_descriptor_for`: the position among the marks that fit, or among those
      of the same role when the mark does not fit its own pattern. */
  function DescriptorFor(re: Regex, mark: Mark, marks: seq<Mark>, hint: Pattern): Descriptor {
    var p := PatternFor(mark, hint);
    var candidates, sameRole := Filter(re, marks, p), SameRole(marks, p.role);
    Descriptor(p,
      if mark in candidates then Index(mark, candidates)
      else if mark in sameRole then Index(mark, sameRole)
      else 0)
  }

  /** A descriptor asks for what the hint asks for, and for the mark's own role if
      it has one. */
  lemma DescriptorAsksFor(re: Regex, mark: Mark, marks: seq<Mark>, hint: Pattern)
    ensures var p := DescriptorFor(re, mark, marks, hint).pattern;
            && p.role == (if mark.role != "" then mark.role else hint.role)
            && p.href == hint.href && p.name == hint.name && p.placeholder == hint.placeholder
            && p.region == hint.region
  {
  }

  /** The marks before position `n` that have the role. */
  function RoleBefore(marks: seq<Mark>, role: string, n: nat): set<nat>
    requires n <= |marks|
  {
    set k: nat | k < n && marks[k].role == role
  }

  lemma SameRoleAt(marks: seq<Mark>, role: string, n: nat)
    requires n < |marks| && marks[n].role == role
    ensures |SameRole(marks[..n], role)| == |RoleBefore(marks, role, n)| < |SameRole(marks, role)|
    ensures SameRole(marks[..n], role) + [marks[n]] <= SameRole(marks, role)
  {
    SameRoleCounts(marks[..n], role);
    RoleBeforeIsOfTheFront(marks, role, n);
    SameRoleGrows(marks, role, n + 1);
    assert marks[..n + 1][..n] == marks[..n];
  }

  lemma {:induction false} SameRoleGrows(marks: seq<Mark>, role: string, n: nat)
    requires n <= |marks|
    ensures SameRole(marks[..n], role) <= SameRole(marks, role)
    decreases |marks|
  {
    if n < |marks| {
      var front := marks[..|marks| - 1];
      SameRoleGrows(front, role, n);
      assert front[..n] == marks[..n];
    } else {
      assert marks[..n] == marks;
    }
  }

  lemma {:induction false} SameRoleCounts(marks: seq<Mark>, role: string)
    ensures |SameRole(marks, role)| == |RoleBefore(marks, role, |marks|)|
  {
    if marks != [] {
      var last := |marks| - 1;
      SameRoleCounts(marks[..last], role);
      RoleBeforeIsOfTheFront(marks, role, last);
      RoleBeforeMore(marks, role, last);
    }
  }

  lemma RoleBeforeIsOfTheFront(marks: seq<Mark>, role: string, n: nat)
    requires n <= |marks|
    ensures RoleBefore(marks, role, n) == RoleBefore(marks[..n], role, n)
  {
  }

  lemma RoleBeforeMore(marks: seq<Mark>, role: string, n: nat)
    requires n < |marks|
    ensures RoleBefore(marks, role, n + 1) ==
            RoleBefore(marks, role, n) + (if marks[n].role == role then {n} else {})
  {
  }

  /** A mark that does not fit its own pattern is recorded by its position among
      the marks of its role. */
  lemma UnfittingIsCountedByRole(re: Regex, marks: seq<Mark>, n: nat, hint: Pattern)
    requires n < |marks| && (forall k :: 0 <= k < n ==> marks[k] != marks[n]) && marks[n].role != ""
    requires !Fits(re, PatternFor(marks[n], hint), marks[n])
    ensures DescriptorFor(re, marks[n], marks, hint).ordinal == |RoleBefore(marks, marks[n].role, n)|
  {
    var role, c := marks[n].role, |RoleBefore(marks, marks[n].role, n)|;
    SameRoleAt(marks, role, n);
    SameRoleIsOn(marks[..n], role);
    assert (SameRole(marks[..n], role) + [marks[n]])[c] == SameRole(marks, role)[c] == marks[n];
    forall k | 0 <= k < c ensures SameRole(marks, role)[k] != marks[n] {
      assert SameRole(marks[..n], role)[k] in SameRole(marks[..n], role);
    }
  }

  lemma {:induction false} SameRoleIsOn(marks: seq<Mark>, role: string)
    ensures forall m <- SameRole(marks, role) :: m in marks
  {
    if marks != [] {
      SameRoleIsOn(marks[..|marks| - 1], role);
    }
  }

  // --- replay ---

  /** Whatever mark a descriptor finds satisfies every field that is set; a
      pattern that does not compile counts as satisfied. */
  lemma MatchFits(re: Regex, d: Descriptor, marks: seq<Mark>)
    ensures Match(re, d, marks).Some? ==>
              Match(re, d, marks).value in marks && Fits(re, d.pattern, Match(re, d, marks).value)
    ensures Match(re, d, marks).None? <==>
              d.ordinal < 0 || |Filter(re, marks, d.pattern)| <= d.ordinal
  {
    var candidates := Filter(re, marks, d.pattern);
    if 0 <= d.ordinal < |candidates| {
      assert candidates[d.ordinal] in candidates;
    }
  }

  /** Round trip: on the page it was made for, a descriptor finds a mark equal
      to the chosen one exactly when the chosen mark is on the page and fits the
      pattern recorded for it. */
  lemma ReplayFindsTheMarkIff(re: Regex, mark: Mark, marks: seq<Mark>, hint: Pattern)
    ensures Match(re, DescriptorFor(re, mark, marks, hint), marks) == Some(mark) <==>
            mark in marks && Fits(re, PatternFor(mark, hint), mark)
  {
    var d := DescriptorFor(re, mark, marks, hint);
    MatchFits(re, d, marks);
  }

  // --- other pages ---

  /** Two pages agree at a pattern when their fitting marks line up. */
  ghost predicate SameShape(re: Regex, p: Pattern, a: seq<Mark>, b: seq<Mark>) {
    |a| == |b| && forall i :: 0 <= i < |a| ==> (Fits(re, p, a[i]) <==> Fits(re, p, b[i]))
  }

  /** How many of the marks before position `n` fit. */
  function FittingBefore(re: Regex, p: Pattern, marks: seq<Mark>, n: nat): nat
    requires n <= |marks|
  {
    |Filter(re, marks[..n], p)|
  }

  lemma {:induction false} FilterPositions(re: Regex, p: Pattern, marks: seq<Mark>, n: nat)
    requires n < |marks| && Fits(re, p, marks[n])
    ensures FittingBefore(re, p, marks, n) < |Filter(re, marks, p)|
    ensures Filter(re, marks, p)[FittingBefore(re, p, marks, n)] == marks[n]
  {
    if n < |marks| - 1 {
      FilterPositions(re, p, marks[..|marks| - 1], n);
      assert marks[..|marks| - 1][..n] == marks[..n];
    }
  }

  lemma {:induction false} SameShapeSameCounts(re: Regex, p: Pattern, a: seq<Mark>, b: seq<Mark>)
    requires SameShape(re, p, a, b)
    ensures |Filter(re, a, p)| == |Filter(re, b, p)|
  {
    if a != [] {
      SameShapeSameCounts(re, p, a[..|a| - 1], b[..|b| - 1]);
    }
  }

  lemma {:induction false} FilterPrefix(re: Regex, p: Pattern, marks: seq<Mark>, n: nat)
    requires n <= |marks|
    ensures Filter(re, marks[..n], p) <= Filter(re, marks, p)
  {
    if n < |marks| {
      FilterPrefix(re, p, marks[..|marks| - 1], n);
      assert marks[..|marks| - 1][..n] == marks[..n];
    } else {
      assert marks[..n] == marks;
    }
  }

  lemma IndexAmongFitting(re: Regex, p: Pattern, marks: seq<Mark>, n: nat)
    requires n < |marks| && Fits(re, p, marks[n])
    requires forall k :: 0 <= k < n ==> marks[k] != marks[n]
    ensures Index(marks[n], Filter(re, marks, p)) == FittingBefore(re, p, marks, n)
  {
    var candidates, before := Filter(re, marks, p), Filter(re, marks[..n], p);
    FilterPositions(re, p, marks, n);
    FilterPrefix(re, p, marks, n);
    forall k | 0 <= k < |before| ensures candidates[k] != marks[n] {
      assert before[k] in before;
    }
  }

  lemma SameShapeBefore(re: Regex, p: Pattern, a: seq<Mark>, b: seq<Mark>, n: nat)
    requires SameShape(re, p, a, b) && n <= |a|
    ensures FittingBefore(re, p, a, n) == FittingBefore(re, p, b, n)
  {
    assert forall k :: 0 <= k < n ==> a[..n][k] == a[k] && b[..n][k] == b[k];
    SameShapeSameCounts(re, p, a[..n], b[..n]);
  }

  lemma FittingKeepsPosition(re: Regex, p: Pattern, a: seq<Mark>, b: seq<Mark>, n: nat)
    requires n < |a| && (forall k :: 0 <= k < n ==> a[k] != a[n])
    requires Fits(re, p, a[n]) && SameShape(re, p, a, b)
    ensures a[n] in Filter(re, a, p)
    ensures var i := Index(a[n], Filter(re, a, p)); i < |Filter(re, b, p)| && Filter(re, b, p)[i] == b[n]
  {
    IndexAmongFitting(re, p, a, n);
    SameShapeBefore(re, p, a, b, n);
    FilterPositions(re, p, b, n);
  }

  /** Cross-row replay: on a page whose marks have other texts and links but fit
      the pattern at the same positions, the descriptor finds the mark at the
      position of the one chosen, if that was the first mark equal to it. */
  lemma ReplayAcrossPages(re: Regex, a: seq<Mark>, b: seq<Mark>, n: nat, hint: Pattern)
    requires n < |a| && (forall k :: 0 <= k < n ==> a[k] != a[n])
    requires Fits(re, PatternFor(a[n], hint), a[n])
    requires SameShape(re, PatternFor(a[n], hint), a, b)
    ensures Match(re, DescriptorFor(re, a[n], a, hint), b) == Some(b[n])
  {
    FittingKeepsPosition(re, PatternFor(a[n], hint), a, b, n);
  }
}

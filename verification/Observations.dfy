/** Compaction of the observation history: extracts are kept whole, the last
    five other entries are kept whole, and older ones become one-line
    abstracts. */
module Observations {
  import opened Wrappers

  const OBSERVATION_WINDOW := 5

  datatype Data = Data(title: string, url: string, keys: nat)

  datatype Summary = NoSummary | PageLine(title: string, url: string) | KeyLine(kind: string, keys: nat)

  datatype Obs = Obs(kind: Option<string>, data: Option<Data>, summary: Summary)

  predicate IsExtract(o: Obs) { o.kind == Some("extract") }

  function OrMark(s: string): string { if s == "" then "?" else s }

  function OneLine(kind: string, data: Data): Summary {
    if kind == "snapshot" then PageLine(OrMark(data.title), OrMark(data.url)) else KeyLine(kind, data.keys)
  }

  function KindOf(o: Obs): string { if o.kind.Some? then o.kind.value else "obs" }

  /** An abstract has no `data`, so abstracting it again counts no keys. */
  function Abstract(o: Obs): Obs {
    Obs(Some(KindOf(o) + ".abstract"), None,
        OneLine(KindOf(o), if o.data.Some? then o.data.value else Data("", "", 0)))
  }

  function Extracts(s: seq<Obs>): seq<Obs> {
    if s == [] then []
    else Extracts(s[..|s| - 1]) + (if IsExtract(s[|s| - 1]) then [s[|s| - 1]] else [])
  }

  function Others(s: seq<Obs>): seq<Obs> {
    if s == [] then []
    else Others(s[..|s| - 1]) + (if IsExtract(s[|s| - 1]) then [] else [s[|s| - 1]])
  }

  function Abstracts(s: seq<Obs>): (r: seq<Obs>)
    ensures |r| == |s| && forall i :: 0 <= i < |s| ==> r[i] == Abstract(s[i])
  {
    if s == [] then [] else Abstracts(s[..|s| - 1]) + [Abstract(s[|s| - 1])]
  }

  /** The entries that are no extracts, with all but the last five abstracted. */
  function Window(os: seq<Obs>): (r: seq<Obs>)
    ensures |r| == |os|
    ensures forall i :: 0 <= i < |os| ==>
              r[i] == if i + OBSERVATION_WINDOW < |os| then Abstract(os[i]) else os[i]
  {
    if |os| <= OBSERVATION_WINDOW then os
    else
      var cut := |os| - OBSERVATION_WINDOW;
      Abstracts(os[..cut]) + os[cut..]
  }

  function Compact(s: seq<Obs>): seq<Obs> { Extracts(s) + Window(Others(s)) }

  method CompactObservations(observations: seq<Obs>) returns (r: seq<Obs>)
    ensures r == Compact(observations)
  {
    var extracts, others := [], [];
    for i := 0 to |observations|
      invariant extracts == Extracts(observations[..i]) && others == Others(observations[..i])
    {
      assert observations[..i + 1][..i] == observations[..i];
      if IsExtract(observations[i]) {
        extracts := extracts + [observations[i]];
      } else {
        others := others + [observations[i]];
      }
    }
    assert observations[..|observations|] == observations;
    if |others| <= OBSERVATION_WINDOW {
      return extracts + others;
    }
    var head := others[..|others| - OBSERVATION_WINDOW];
    var tail := others[|others| - OBSERVATION_WINDOW..];
    var abstracts := [];
    for i := 0 to |head|
      invariant abstracts == Abstracts(head[..i])
    {
      assert head[..i + 1][..i] == head[..i];
      abstracts := abstracts + [Abstract(head[i])];
    }
    assert head[..|head|] == head;
    assert abstracts + tail == Window(others);
    assert extracts + abstracts + tail == extracts + (abstracts + tail);
    return extracts + abstracts + tail;
  }

  // --- splitting ---

  lemma {:induction false} SplitAppend(a: seq<Obs>, b: seq<Obs>)
    ensures Extracts(a + b) == Extracts(a) + Extracts(b)
    ensures Others(a + b) == Others(a) + Others(b)
  {
    if b == [] {
      assert a + b == a;
    } else {
      assert (a + b)[..|a + b| - 1] == a + b[..|b| - 1];
      SplitAppend(a, b[..|b| - 1]);
    }
  }

  lemma {:induction false} SplitSizes(s: seq<Obs>)
    ensures |Extracts(s)| + |Others(s)| == |s|
    ensures forall o <- Extracts(s) :: IsExtract(o)
    ensures forall o <- Others(s) :: !IsExtract(o)
  {
    if s != [] {
      SplitSizes(s[..|s| - 1]);
    }
  }

  lemma {:induction false} AllExtracts(s: seq<Obs>)
    requires forall o <- s :: IsExtract(o)
    ensures Extracts(s) == s && Others(s) == []
  {
    if s != [] {
      AllExtracts(s[..|s| - 1]);
      assert s[..|s| - 1] + [s[|s| - 1]] == s;
    }
  }

  lemma {:induction false} NoExtracts(s: seq<Obs>)
    requires forall o <- s :: !IsExtract(o)
    ensures Extracts(s) == [] && Others(s) == s
  {
    if s != [] {
      NoExtracts(s[..|s| - 1]);
      assert s[..|s| - 1] + [s[|s| - 1]] == s;
    }
  }

  lemma SplitOf(e: seq<Obs>, os: seq<Obs>)
    requires (forall o <- e :: IsExtract(o)) && (forall o <- os :: !IsExtract(o))
    ensures Extracts(e + os) == e && Others(e + os) == os
  {
    AllExtracts(e);
    NoExtracts(os);
    SplitAppend(e, os);
    assert e + [] == e && [] + os == os;
  }

  lemma WindowHasNoExtract(os: seq<Obs>)
    requires forall o <- os :: !IsExtract(o)
    ensures forall o <- Window(os) :: !IsExtract(o)
  {
    forall i | 0 <= i < |os| ensures !IsExtract(Window(os)[i]) {
      assert os[i] in os;
      EndsInAbstract(KindOf(os[i]));
    }
  }

  /** What is left of each entry: extracts come first and whole, then the others
      in order, the last five whole and of each older one its kind and a line
      that names the page of a snapshot and otherwise counts the keys. */
  lemma CompactSays(s: seq<Obs>, i: nat)
    requires i < |Others(s)|
    ensures (forall o <- Extracts(s) :: o.kind == Some("extract")) && |Extracts(s)| + |Others(s)| == |s|
    ensures (forall o <- Others(s) :: o.kind != Some("extract")) && |Compact(s)| == |s|
    ensures Extracts(s) <= Compact(s)
    ensures var o, left := Others(s)[i], Compact(s)[|Extracts(s)| + i];
            if i + 5 >= |Others(s)| then left == o
            else
              var kind := if o.kind.Some? then o.kind.value else "obs";
              var data := if o.data.Some? then o.data.value else Data("", "", 0);
              && left.kind == Some(kind + ".abstract") && left.data == None
              && (kind == "snapshot" ==>
                    left.summary == PageLine(if data.title == "" then "?" else data.title,
                                             if data.url == "" then "?" else data.url))
              && (kind != "snapshot" ==> left.summary == KeyLine(kind, data.keys))
  {
    SplitSizes(s);
    assert Compact(s)[|Extracts(s)| + i] == Window(Others(s))[i];
  }

  // --- compacting after every append ---

  /** What the nodes do: each new entry is appended and the result compacted. */
  function Incremental(h: seq<Obs>): seq<Obs> {
    if h == [] then [] else Compact(Incremental(h[..|h| - 1]) + [h[|h| - 1]])
  }

  /** How many compactions have found the i-th other entry outside the window. */
  function Age(h: seq<Obs>, i: nat): nat {
    if h == [] then 0
    else Age(h[..|h| - 1], i) + (if |Others(h)| > i + OBSERVATION_WINDOW then 1 else 0)
  }

  function AbstractTimes(o: Obs, n: nat): Obs {
    if n == 0 then o else Abstract(AbstractTimes(o, n - 1))
  }

  function Aged(h: seq<Obs>): (r: seq<Obs>)
    ensures |r| == |Others(h)|
  {
    seq(|Others(h)|, i requires 0 <= i < |Others(h)| => AbstractTimes(Others(h)[i], Age(h, i)))
  }

  lemma EndsInAbstract(kind: string)
    ensures kind + ".abstract" != "extract"
  {
    assert |kind + ".abstract"| > |"extract"|;
  }

  lemma {:induction false} AgedIsNoExtract(o: Obs, n: nat)
    requires !IsExtract(o)
    ensures !IsExtract(AbstractTimes(o, n))
  {
    if n > 0 {
      EndsInAbstract(KindOf(AbstractTimes(o, n - 1)));
    }
  }

  lemma {:induction false} YoungIsUntouched(h: seq<Obs>, i: nat)
    requires |Others(h)| <= i + OBSERVATION_WINDOW
    ensures Age(h, i) == 0
  {
    if h != [] {
      YoungIsUntouched(h[..|h| - 1], i);
    }
  }

  lemma AgedHasNoExtract(h: seq<Obs>)
    ensures forall o <- Aged(h) :: !IsExtract(o)
  {
    SplitSizes(h);
    forall i | 0 <= i < |Aged(h)| ensures !IsExtract(Aged(h)[i]) {
      assert Others(h)[i] in Others(h);
      AgedIsNoExtract(Others(h)[i], Age(h, i));
    }
  }

  function Newest(h: seq<Obs>): seq<Obs>
    requires h != []
  {
    if IsExtract(h[|h| - 1]) then [] else [h[|h| - 1]]
  }

  lemma OneCompactionOlder(h: seq<Obs>, o: Obs, i: nat)
    requires h != []
    ensures AbstractTimes(o, Age(h, i)) ==
            var before := AbstractTimes(o, Age(h[..|h| - 1], i));
            if i + OBSERVATION_WINDOW < |Others(h)| then Abstract(before) else before
  {
    AgeNext(h, i);
    if i + OBSERVATION_WINDOW < |Others(h)| {
      OnceMore(o, Age(h[..|h| - 1], i));
    }
  }

  lemma AgeNext(h: seq<Obs>, i: nat)
    requires h != []
    ensures Age(h, i) == Age(h[..|h| - 1], i) + if i + OBSERVATION_WINDOW < |Others(h)| then 1 else 0
  {
  }

  lemma OnceMore(o: Obs, n: nat)
    ensures AbstractTimes(o, n + 1) == Abstract(AbstractTimes(o, n))
  {
  }

  lemma AgedOneMore(h: seq<Obs>)
    requires h != []
    ensures Aged(h) == Window(Aged(h[..|h| - 1]) + Newest(h))
  {
    var front := h[..|h| - 1];
    var os := Aged(front) + Newest(h);
    assert Others(h) == Others(front) + Newest(h);
    forall i | 0 <= i < |os| ensures Aged(h)[i] == Window(os)[i] {
      OneCompactionOlder(h, Others(h)[i], i);
      if i == |Others(front)| {
        YoungIsUntouched(front, i);
      }
      assert os[i] == AbstractTimes(Others(h)[i], Age(front, i));
    }
  }

  /** Closed form of the incremental history: every extract in order, then every
      other entry in order, abstracted once per compaction since it left the
      window. */
  lemma {:induction false} IncrementalClosedForm(h: seq<Obs>)
    ensures Incremental(h) == Extracts(h) + Aged(h)
  {
    if h != [] {
      var front, last := h[..|h| - 1], h[|h| - 1];
      IncrementalClosedForm(front);
      SplitSizes(front);
      AgedHasNoExtract(front);
      SplitOf(Extracts(front), Aged(front));
      SplitAppend(Incremental(front), [last]);
      assert [last][..0] == [];
      assert Extracts([last]) == [] + (if IsExtract(last) then [last] else []);
      assert Others([last]) == [] + Newest(h);
      AgedOneMore(h);
    }
  }

  /** Nothing is dropped: every extract stands, in order, the last five other
      entries are those of the whole history, and the entry count is kept. */
  lemma IncrementalKeepsWhatMatters(h: seq<Obs>)
    ensures Extracts(Incremental(h)) == Extracts(h)
    ensures |Incremental(h)| == |h|
    ensures var os, ios := Others(h), Others(Incremental(h));
            && |ios| == |os|
            && forall i :: 0 <= i < |os| && i + OBSERVATION_WINDOW >= |os| ==> ios[i] == os[i]
  {
    IncrementalClosedForm(h);
    AgedHasNoExtract(h);
    SplitSizes(h);
    SplitOf(Extracts(h), Aged(h));
    forall i | 0 <= i < |Others(h)| && i + OBSERVATION_WINDOW >= |Others(h)|
      ensures Aged(h)[i] == Others(h)[i]
    {
      YoungIsUntouched(h, i);
    }
  }

  // --- against compacting once ---

  lemma {:induction false} KindGrows(o: Obs, n: nat)
    ensures |KindOf(AbstractTimes(o, n))| == |KindOf(o)| + 9 * n
  {
    if n > 0 {
      KindGrows(o, n - 1);
    }
  }

  lemma AbstractedOnceIff(o: Obs, n: nat)
    ensures AbstractTimes(o, n) == Abstract(o) <==> n == 1
  {
    KindGrows(o, n);
    KindGrows(o, 1);
    assert AbstractTimes(o, 0) == o;
    assert AbstractTimes(o, 1) == Abstract(AbstractTimes(o, 0));
  }

  lemma {:induction false} OlderIsMoreAged(h: seq<Obs>, i: nat)
    ensures Age(h, i) <= Age(h, 0)
    ensures |Others(h)| > i + OBSERVATION_WINDOW ==> Age(h, i) >= 1
  {
    if h != [] {
      OlderIsMoreAged(h[..|h| - 1], i);
    }
  }

  lemma AgedIsWindowIff(h: seq<Obs>)
    ensures Aged(h) == Window(Others(h)) <==> Age(h, 0) <= 1
  {
    var os := Others(h);
    forall i | 0 <= i < |os|
      ensures Aged(h)[i] == Window(os)[i] <==> (i + OBSERVATION_WINDOW < |os| ==> Age(h, i) == 1)
    {
      if i + OBSERVATION_WINDOW < |os| {
        AbstractedOnceIff(os[i], Age(h, i));
      } else {
        YoungIsUntouched(h, i);
      }
    }
    if |os| <= OBSERVATION_WINDOW {
      YoungIsUntouched(h, 0);
    } else {
      assert Aged(h) == Window(os) ==> Aged(h)[0] == Window(os)[0];
    }
    forall i | 0 <= i < |os|
      ensures Age(h, i) <= Age(h, 0) && (i + OBSERVATION_WINDOW < |os| ==> Age(h, i) >= 1)
    {
      OlderIsMoreAged(h, i);
    }
  }

  /** One compaction of the whole history gives the same entries exactly while
      at most one entry has arrived since the sixth that is not an extract,
      itself included: after that, abstracts are abstracted again. */
  lemma SameAsOnceIff(h: seq<Obs>)
    ensures Incremental(h) == Compact(h) <==> Age(h, 0) <= 1
  {
    IncrementalClosedForm(h);
    AgedIsWindowIff(h);
    var e := Extracts(h);
    assert (e + Aged(h))[|e|..] == Aged(h) && (e + Window(Others(h)))[|e|..] == Window(Others(h));
  }

  lemma {:induction false} AgeCounts(h: seq<Obs>)
    requires forall o <- h :: !IsExtract(o)
    ensures Others(h) == h && Age(h, 0) == if |h| <= OBSERVATION_WINDOW then 0 else |h| - OBSERVATION_WINDOW
  {
    NoExtracts(h);
    if h != [] {
      AgeCounts(h[..|h| - 1]);
    }
  }

  /** Seven snapshots are enough for the two to differ. */
  lemma SevenEntriesDiffer(h: seq<Obs>)
    requires |h| >= OBSERVATION_WINDOW + 2 && forall o <- h :: !IsExtract(o)
    ensures Incremental(h) != Compact(h)
  {
    AgeCounts(h);
    SameAsOnceIff(h);
  }

  /** Compacting again changes nothing exactly when nothing was abstracted. */
  lemma CompactTwiceIff(s: seq<Obs>)
    ensures Compact(Compact(s)) == Compact(s) <==> |Others(s)| <= OBSERVATION_WINDOW
  {
    var e, os := Extracts(s), Others(s);
    SplitSizes(s);
    WindowHasNoExtract(os);
    SplitOf(e, Window(os));
    if |os| > OBSERVATION_WINDOW {
      assert Compact(s)[|e|] == Abstract(os[0]);
      assert Compact(Compact(s))[|e|] == Abstract(Abstract(os[0]));
      assert |KindOf(Abstract(Abstract(os[0])))| > |KindOf(Abstract(os[0]))|;
    }
  }
}

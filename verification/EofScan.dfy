/** What the one-pass scan knows when it stands at position i, and that each of its steps keeps it. */
module EofScan {
  import opened Prelude
  import opened EofTyping

  /** The scan's record of one code byte. `heights` is None until a height is recorded. */
  datatype Mark = Mark(isImmediate: bool, isJumpdest: bool, heights: Option<Heights>)

  const FRESH: Mark := Mark(false, false, None)

  function Joined(h: Option<Heights>, other: Heights): Heights {
    if h.None? then other else h.value.Join(other)
  }

  /** The scan stands at i; `next` is what falls through to i unless `after` says nothing does. */
  datatype Scan = Scan(marks: seq<Mark>, i: nat, next: Heights, after: bool)

  function Recorded(marks: seq<Mark>): Typing {
    seq(|marks|, k requires 0 <= k < |marks| =>
      if marks[k].heights.Some? then marks[k].heights.value else Heights(0, 0))
  }

  predicate Has(marks: seq<Mark>, p: int) {
    0 <= p < |marks| && marks[p].heights.Some?
  }

  function OutOf(s: Section, marks: seq<Mark>, p: int): Heights
    requires |marks| == |s| && IsInstr(s, p) && Has(marks, p)
  {
    marks[p].heights.value.Shift(s[p].value.diff)
  }

  predicate TargetOk(s: Section, c: Scan, p: int, t: int)
    requires |c.marks| == |s| && IsInstr(s, p) && Has(c.marks, p)
  {
    && Has(c.marks, t)
    && (t < c.i ==> Start(s, t))
    && (if t <= p then c.marks[t].heights.value == OutOf(s, c.marks, p)
        else c.marks[t].isJumpdest && c.marks[t].heights.value.Covers(OutOf(s, c.marks, p)))
  }

  /** The instruction at p has been checked and its outgoing heights recorded. */
  predicate Done(s: Section, c: Scan, p: int)
    requires |c.marks| == |s|
  {
    && IsInstr(s, p) && p + s[p].value.size <= c.i && Has(c.marks, p)
    && s[p].value.need <= c.marks[p].heights.value.smallest
    && WithinCap(s[p].value, c.marks[p].heights.value.biggest)
    && (forall t :: t in s[p].value.targets ==> TargetOk(s, c, p, t))
    && (p + s[p].value.size == c.i ==>
          c.after == s[p].value.terminating && (!c.after ==> c.next == OutOf(s, c.marks, p)))
    && (p + s[p].value.size < c.i && !s[p].value.terminating ==>
          && Has(c.marks, p + s[p].value.size)
          && c.marks[p + s[p].value.size].heights.value.Covers(OutOf(s, c.marks, p)))
  }

  predicate Feeds(s: Section, marks: seq<Mark>, j: int, q: int)
    requires |marks| == |s|
  {
    ForwardEdge(s, j, q) && Has(marks, j)
  }

  predicate JumpFeeds(s: Section, marks: seq<Mark>, i: nat, j: int, q: int)
    requires |marks| == |s|
  {
    j < i && Feeds(s, marks, j, q) && q in s[j].value.targets
  }

  /** Where the heights recorded at q come from: before the scan, from some earlier instruction;
      ahead of it, from jumps already seen and from nothing else. */
  ghost predicate Origin(s: Section, c: Scan, q: int)
    requires |c.marks| == |s| && 0 <= q < |s|
  {
    if q < c.i then
      0 < q && Start(s, q) ==>
        && Has(c.marks, q)
        && (exists j :: Feeds(s, c.marks, j, q) && c.marks[q].heights.value.smallest == OutOf(s, c.marks, j).smallest)
        && (exists j :: Feeds(s, c.marks, j, q) && c.marks[q].heights.value.biggest == OutOf(s, c.marks, j).biggest)
    else if c.marks[q].isJumpdest then
      && Has(c.marks, q)
      && (exists j :: JumpFeeds(s, c.marks, c.i, j, q) && c.marks[q].heights.value.smallest == OutOf(s, c.marks, j).smallest)
      && (exists j :: JumpFeeds(s, c.marks, c.i, j, q) && c.marks[q].heights.value.biggest == OutOf(s, c.marks, j).biggest)
    else c.marks[q].heights.None?
  }

  ghost predicate Inv(s: Section, inputs: int, c: Scan) {
    && |c.marks| == |s| && c.i <= |s| && Start(s, c.i)
    && (forall k :: 0 <= k < |s| ==> (c.marks[k].isImmediate <==> k < c.i && !Start(s, k)))
    && (forall k :: 0 <= k < |s| && c.marks[k].isImmediate ==> c.marks[k].heights.None?)
    && (c.i == 0 ==> !c.after && c.next == Heights(inputs, inputs) && forall k :: 0 <= k < |s| ==> !c.marks[k].isJumpdest)
    && (c.i > 0 ==> c.marks[0].heights == Some(Heights(inputs, inputs)))
    && (forall p {:trigger Done(s, c, p)} :: 0 <= p < c.i && Start(s, p) ==> Done(s, c, p))
    && (forall q {:trigger Origin(s, c, q)} :: 0 <= q < |s| ==> Origin(s, c, q))
  }

  // ---- Accepting ----

  lemma AcceptedNode(s: Section, inputs: int, c: Scan, p: int)
    requires Inv(s, inputs, c) && c.i == |s| && c.after && 0 <= p < |s| && Start(s, p)
    ensures NodeOk(s, Recorded(c.marks), p)
  {
    assert Done(s, c, p);
  }

  lemma AcceptedOrigin(s: Section, inputs: int, c: Scan, q: int)
    requires Inv(s, inputs, c) && c.i == |s| && 0 < q < |s| && Start(s, q)
    ensures Attained(s, Recorded(c.marks), q)
  {
    assert Origin(s, c, q);
    var ty := Recorded(c.marks);
    var j: int :| Feeds(s, c.marks, j, q) && c.marks[q].heights.value.smallest == OutOf(s, c.marks, j).smallest;
    assert ForwardEdge(s, j, q) && ty[q].smallest == Out(s, ty, j).smallest;
    var k: int :| Feeds(s, c.marks, k, q) && c.marks[q].heights.value.biggest == OutOf(s, c.marks, k).biggest;
    assert ForwardEdge(s, k, q) && ty[q].biggest == Out(s, ty, k).biggest;
  }

  /** At the end of the code, what was recorded is a typing. */
  lemma Accepted(s: Section, inputs: int, c: Scan, m: int)
    requires Inv(s, inputs, c) && c.i == |s| > 0 && c.after && MaxHeight(s, Recorded(c.marks), m)
    ensures IsTyping(s, inputs, m, Recorded(c.marks))
  {
    var ty := Recorded(c.marks);
    forall p: int | 0 <= p < |s| && Start(s, p) ensures NodeOk(s, ty, p) {
      AcceptedNode(s, inputs, c, p);
    }
    forall q: int | 0 < q < |s| && Start(s, q) ensures Attained(s, ty, q) {
      AcceptedOrigin(s, inputs, c, q);
    }
  }

  // ---- Whatever types the section agrees with the scan ----

  lemma FeedCovered(s: Section, inputs: int, c: Scan, j: int, q: int)
    requires Inv(s, inputs, c) && 0 <= q < c.i && Start(s, q) && ForwardEdge(s, j, q)
    ensures Feeds(s, c.marks, j, q) && Has(c.marks, q) && c.marks[q].heights.value.Covers(OutOf(s, c.marks, j))
  {
    assert Done(s, c, j) && Done(s, c, q);
    if q !in s[j].value.targets {
      assert q == j + s[j].value.size;
    }
  }

  lemma {:induction false} Agreement(s: Section, inputs: int, c: Scan, m: int, ty: Typing, q: nat)
    requires Inv(s, inputs, c) && IsTyping(s, inputs, m, ty) && q < c.i && q < |s| && Start(s, q)
    ensures c.marks[q].heights == Some(ty[q])
    decreases q
  {
    assert Done(s, c, q);
    if q > 0 {
      forall j | ForwardEdge(s, j, q)
        ensures Feeds(s, c.marks, j, q) && c.marks[j].heights == Some(ty[j])
        ensures ty[q].Covers(OutOf(s, c.marks, j)) && c.marks[q].heights.value.Covers(OutOf(s, c.marks, j))
      {
        Agreement(s, inputs, c, m, ty, j);
        assert NodeOk(s, ty, j);
        ForwardCovers(s, ty, j, q);
        FeedCovered(s, inputs, c, j, q);
      }
      assert Attained(s, ty, q) && Origin(s, c, q);
    }
  }

  // ---- One step ----

  /** The heights the scan settles on for the instruction it stands at. */
  function Here(c: Scan): Heights
    requires c.i < |c.marks| && (c.after ==> Has(c.marks, c.i))
  {
    if c.after then c.marks[c.i].heights.value else Joined(c.marks[c.i].heights, c.next)
  }

  /** Something reaches position i: it is fallen into or jumped to. */
  predicate Reached(c: Scan) {
    c.i < |c.marks| && (c.after ==> c.marks[c.i].isJumpdest)
  }

  lemma ReachedHas(s: Section, inputs: int, c: Scan)
    requires Inv(s, inputs, c) && Reached(c)
    ensures c.after ==> Has(c.marks, c.i)
    ensures c.i == 0 ==> Here(c) == Heights(inputs, inputs)
  {
    assert Origin(s, c, c.i);
  }

  /** Every forward edge into i has been seen. */
  lemma EdgeIntoHere(s: Section, inputs: int, c: Scan, j: int)
    requires Inv(s, inputs, c) && c.i < |s| && ForwardEdge(s, j, c.i)
    ensures Reached(c) && Has(c.marks, j) && (c.after ==> Has(c.marks, c.i))
    ensures Here(c).Covers(OutOf(s, c.marks, j))
  {
    assert Done(s, c, j);
    if c.i !in s[j].value.targets {
      assert c.i == j + s[j].value.size;
    }
  }

  lemma HereAttained(s: Section, inputs: int, c: Scan)
    requires Inv(s, inputs, c) && 0 < c.i < |s| && Reached(c)
    ensures c.after ==> Has(c.marks, c.i)
    ensures exists j :: Feeds(s, c.marks, j, c.i) && Here(c).smallest == OutOf(s, c.marks, j).smallest
    ensures exists j :: Feeds(s, c.marks, j, c.i) && Here(c).biggest == OutOf(s, c.marks, j).biggest
  {
    assert Origin(s, c, c.i);
    if c.marks[c.i].isJumpdest {
      var j: int :| JumpFeeds(s, c.marks, c.i, j, c.i) && c.marks[c.i].heights.value.smallest == OutOf(s, c.marks, j).smallest;
      var k: int :| JumpFeeds(s, c.marks, c.i, k, c.i) && c.marks[c.i].heights.value.biggest == OutOf(s, c.marks, k).biggest;
      assert Feeds(s, c.marks, j, c.i) && Feeds(s, c.marks, k, c.i);
    }
    if !c.after {
      var p := Predecessor(s, 0, c.i);
      assert Done(s, c, p);
      assert Feeds(s, c.marks, p, c.i) && c.next == OutOf(s, c.marks, p);
    }
  }

  lemma HereAgrees(s: Section, inputs: int, c: Scan, m: int, ty: Typing)
    requires Inv(s, inputs, c) && c.i < |s| && IsTyping(s, inputs, m, ty)
    ensures Reached(c) && (c.after ==> Has(c.marks, c.i)) && Here(c) == ty[c.i]
  {
    if c.i > 0 {
      assert Attained(s, ty, c.i);
      forall j | ForwardEdge(s, j, c.i)
        ensures Reached(c) && Has(c.marks, j) && c.marks[j].heights == Some(ty[j])
        ensures (c.after ==> Has(c.marks, c.i)) && Here(c).Covers(OutOf(s, c.marks, j)) && ty[c.i].Covers(Out(s, ty, j))
      {
        EdgeIntoHere(s, inputs, c, j);
        Agreement(s, inputs, c, m, ty, j);
        assert NodeOk(s, ty, j);
        ForwardCovers(s, ty, j, c.i);
      }
      HereAttained(s, inputs, c);
    } else {
      ReachedHas(s, inputs, c);
    }
  }

  /** A destination the scan accepts for the instruction at i: inside the code, not an immediate
      byte, and, unless it lies ahead, recorded with exactly the heights that arrive. */
  predicate LegalTarget(s: Section, c: Scan, t: int)
    requires c.i < |s| && s[c.i].Some? && |c.marks| == |s| && (c.after ==> Has(c.marks, c.i))
  {
    var out := Here(c).Shift(s[c.i].value.diff);
    && 0 <= t < |s|
    && !(c.i < t < c.i + s[c.i].value.size)
    && !c.marks[t].isImmediate
    && (t < c.i ==> c.marks[t].heights == Some(out))
    && (t == c.i ==> Here(c) == out)
  }

  /** Every check the scan makes at i passes. */
  predicate Legal(s: Section, c: Scan) {
    && c.i < |s| == |c.marks| && Reached(c) && (c.after ==> Has(c.marks, c.i))
    && s[c.i].Some? && s[c.i].value.size > 0 && c.i + s[c.i].value.size <= |s|
    && s[c.i].value.need <= Here(c).smallest
    && WithinCap(s[c.i].value, Here(c).biggest)
    && (forall k :: c.i < k < c.i + s[c.i].value.size ==> !c.marks[k].isJumpdest)
    && (forall t :: t in s[c.i].value.targets ==> LegalTarget(s, c, t))
  }

  function NewMark(s: Section, c: Scan, k: nat): Mark
    requires c.i < |s| == |c.marks| && s[c.i].Some? && (c.after ==> Has(c.marks, c.i)) && k < |s|
  {
    var instr := s[c.i].value;
    var mark :=
      if k == c.i then c.marks[k].(heights := Some(Here(c)))
      else if c.i < k < c.i + instr.size then c.marks[k].(isImmediate := true)
      else c.marks[k];
    if k !in instr.targets then mark
    else if k <= c.i then mark.(isJumpdest := true)
    else mark.(isJumpdest := true, heights := Some(Joined(mark.heights, Here(c).Shift(instr.diff))))
  }

  ghost predicate Stepped(s: Section, c: Scan, c': Scan)
    requires c.i < |s| == |c.marks| && s[c.i].Some? && (c.after ==> Has(c.marks, c.i))
  {
    && c'.i == c.i + s[c.i].value.size
    && c'.next == Here(c).Shift(s[c.i].value.diff)
    && c'.after == s[c.i].value.terminating
    && |c'.marks| == |s|
    && forall k :: 0 <= k < |s| ==> c'.marks[k] == NewMark(s, c, k)
  }

  lemma StepStarts(s: Section, inputs: int, c: Scan, c': Scan, k: nat)
    requires Inv(s, inputs, c) && Legal(s, c) && Stepped(s, c, c') && k < |s|
    ensures Start(s, c'.i)
    ensures c'.marks[k].isImmediate <==> k < c'.i && !Start(s, k)
    ensures c'.marks[k].isImmediate ==> c'.marks[k].heights.None?
  {
    StartStep(s, 0, c.i);
    assert Origin(s, c, k);
    assert k in s[c.i].value.targets ==> LegalTarget(s, c, k);
    if c.i < k < c'.i {
      NoStartInside(s, 0, c.i, k);
    }
  }

  /** Where the scan has passed, recorded heights no longer change. */
  lemma StepHeights(s: Section, inputs: int, c: Scan, c': Scan, k: nat)
    requires Inv(s, inputs, c) && Legal(s, c) && Stepped(s, c, c') && k < |s|
    ensures k < c.i ==> c'.marks[k].heights == c.marks[k].heights
    ensures k == c.i ==> c'.marks[k].heights == Some(Here(c))
    ensures Has(c.marks, k) ==> Has(c'.marks, k) && c'.marks[k].heights.value.Covers(c.marks[k].heights.value)
    ensures c.marks[k].isJumpdest ==> c'.marks[k].isJumpdest
  {
  }

  lemma StepDoneOld(s: Section, inputs: int, c: Scan, c': Scan, p: int)
    requires Inv(s, inputs, c) && Legal(s, c) && Stepped(s, c, c') && 0 <= p < c.i && Start(s, p)
    ensures Done(s, c', p)
  {
    assert Done(s, c, p);
    StepHeights(s, inputs, c, c', p);
    forall t | t in s[p].value.targets ensures TargetOk(s, c', p, t) {
      assert TargetOk(s, c, p, t);
      StepHeights(s, inputs, c, c', t);
    }
    if p + s[p].value.size < c.i {
      StepHeights(s, inputs, c, c', p + s[p].value.size);
    }
  }

  lemma StepDoneNew(s: Section, inputs: int, c: Scan, c': Scan)
    requires Inv(s, inputs, c) && Legal(s, c) && Stepped(s, c, c')
    ensures Done(s, c', c.i)
  {
    var p := c.i;
    StepHeights(s, inputs, c, c', p);
    forall t | t in s[p].value.targets ensures TargetOk(s, c', p, t) {
      assert LegalTarget(s, c, t);
      assert c'.marks[t] == NewMark(s, c, t);
    }
  }

  lemma StepOriginBehind(s: Section, inputs: int, c: Scan, c': Scan, q: int)
    requires Inv(s, inputs, c) && Legal(s, c) && Stepped(s, c, c') && 0 <= q <= c.i
    ensures Origin(s, c', q)
  {
    if 0 < q && Start(s, q) {
      StepHeights(s, inputs, c, c', q);
      assert Origin(s, c, q);
      forall j | Feeds(s, c.marks, j, q) ensures Feeds(s, c'.marks, j, q) && OutOf(s, c'.marks, j) == OutOf(s, c.marks, j) {
        StepHeights(s, inputs, c, c', j);
      }
      if q == c.i {
        HereAttained(s, inputs, c);
      }
    }
  }

  lemma StepOriginAhead(s: Section, inputs: int, c: Scan, c': Scan, q: int)
    requires Inv(s, inputs, c) && Legal(s, c) && Stepped(s, c, c') && c'.i <= q < |s|
    ensures Origin(s, c', q)
  {
    assert Origin(s, c, q);
    assert c'.marks[q] == NewMark(s, c, q);
    forall j | JumpFeeds(s, c.marks, c.i, j, q)
      ensures JumpFeeds(s, c'.marks, c'.i, j, q) && OutOf(s, c'.marks, j) == OutOf(s, c.marks, j)
    {
      StepHeights(s, inputs, c, c', j);
    }
    if q in s[c.i].value.targets {
      StepHeights(s, inputs, c, c', c.i);
      assert JumpFeeds(s, c'.marks, c'.i, c.i, q);
    }
  }

  /** One accepted instruction keeps the invariant. */
  lemma StepKeepsInv(s: Section, inputs: int, c: Scan, c': Scan)
    requires Inv(s, inputs, c) && Legal(s, c) && Stepped(s, c, c')
    ensures Inv(s, inputs, c')
  {
    ReachedHas(s, inputs, c);
    StepStarts(s, inputs, c, c', 0);
    StepHeights(s, inputs, c, c', 0);
    forall k: int | 0 <= k < |s|
      ensures c'.marks[k].isImmediate <==> k < c'.i && !Start(s, k)
      ensures c'.marks[k].isImmediate ==> c'.marks[k].heights.None?
    {
      StepStarts(s, inputs, c, c', k);
    }
    forall p: int | 0 <= p < c'.i && Start(s, p) ensures Done(s, c', p) {
      if p < c.i {
        StepDoneOld(s, inputs, c, c', p);
      } else if p == c.i {
        StepDoneNew(s, inputs, c, c');
      } else {
        NoStartInside(s, 0, c.i, p);
      }
    }
    forall q: int | 0 <= q < |s| ensures Origin(s, c', q) {
      if q <= c.i {
        StepOriginBehind(s, inputs, c, c', q);
      } else if q >= c'.i {
        StepOriginAhead(s, inputs, c, c', q);
      } else {
        NoStartInside(s, 0, c.i, q);
      }
    }
  }

  // ---- Rejecting ----

  /** A typed section passes every check at every position the scan reaches. */
  lemma TypedIsLegal(s: Section, inputs: int, c: Scan, m: int, ty: Typing)
    requires Inv(s, inputs, c) && c.i < |s| && IsTyping(s, inputs, m, ty)
    ensures Legal(s, c)
  {
    HereAgrees(s, inputs, c, m, ty);
    assert NodeOk(s, ty, c.i);
    forall k | c.i < k < c.i + s[c.i].value.size ensures !c.marks[k].isJumpdest {
      TypedInside(s, inputs, c, m, ty, k);
    }
    forall t | t in s[c.i].value.targets ensures LegalTarget(s, c, t) {
      TypedTarget(s, inputs, c, m, ty, t);
    }
  }

  lemma Rejected(s: Section, inputs: int, c: Scan, m: int)
    requires Inv(s, inputs, c) && c.i < |s| && !Legal(s, c)
    ensures !Typable(s, inputs, m)
  {
    if Typable(s, inputs, m) {
      var ty :| IsTyping(s, inputs, m, ty);
      TypedIsLegal(s, inputs, c, m, ty);
    }
  }

  lemma TypedInside(s: Section, inputs: int, c: Scan, m: int, ty: Typing, k: int)
    requires Inv(s, inputs, c) && IsInstr(s, c.i) && IsTyping(s, inputs, m, ty)
    requires c.i < k < c.i + s[c.i].value.size && k < |s|
    ensures !c.marks[k].isJumpdest
  {
    assert Origin(s, c, k);
    if c.marks[k].isJumpdest {
      var j: int :| JumpFeeds(s, c.marks, c.i, j, k) && c.marks[k].heights.value.smallest == OutOf(s, c.marks, j).smallest;
      assert NodeOk(s, ty, j);
      NoStartInside(s, 0, c.i, k);
    }
  }

  lemma TypedTarget(s: Section, inputs: int, c: Scan, m: int, ty: Typing, t: int)
    requires Inv(s, inputs, c) && IsInstr(s, c.i) && IsTyping(s, inputs, m, ty) && t in s[c.i].value.targets
    requires (c.after ==> Has(c.marks, c.i)) && Here(c) == ty[c.i]
    ensures LegalTarget(s, c, t)
  {
    assert NodeOk(s, ty, c.i);
    if c.i < t < c.i + s[c.i].value.size {
      NoStartInside(s, 0, c.i, t);
    }
    if t < c.i {
      Agreement(s, inputs, c, m, ty, t);
    }
  }

  /** A typed section ends in a terminating instruction, and its maximum is the recorded one. */
  lemma TypedEnds(s: Section, inputs: int, c: Scan, m: int, ty: Typing)
    requires Inv(s, inputs, c) && c.i == |s| && IsTyping(s, inputs, m, ty)
    ensures c.after && MaxHeight(s, Recorded(c.marks), m)
  {
    var p := Predecessor(s, 0, |s|);
    assert Done(s, c, p) && NodeOk(s, ty, p);
    forall q: int | 0 <= q < |s| && Start(s, q) ensures Recorded(c.marks)[q] == ty[q] {
      Agreement(s, inputs, c, m, ty, q);
    }
  }

  /** The verdict at the end of the code. */
  lemma Verdict(s: Section, inputs: int, c: Scan, m: int, declared: int)
    requires Inv(s, inputs, c) && c.i == |s| && MaxHeight(s, Recorded(c.marks), m)
    ensures Typable(s, inputs, declared) <==> c.after && m == declared
  {
    if c.after && m == declared {
      assert |s| > 0;
      Accepted(s, inputs, c, m);
    }
    if Typable(s, inputs, declared) {
      var ty :| IsTyping(s, inputs, declared, ty);
      TypedEnds(s, inputs, c, declared, ty);
      MaxHeightUnique(s, Recorded(c.marks), m, declared);
    }
  }

  lemma MaxHeightUnique(s: Section, ty: Typing, m1: int, m2: int)
    requires |ty| == |s| && MaxHeight(s, ty, m1) && MaxHeight(s, ty, m2)
    ensures m1 == m2
  {
  }

  lemma InitialInv(s: Section, inputs: int, c: Scan)
    requires |c.marks| == |s| && (forall k :: 0 <= k < |s| ==> c.marks[k] == FRESH)
    requires c.i == 0 && c.next == Heights(inputs, inputs) && !c.after
    ensures Inv(s, inputs, c)
  {
  }
}

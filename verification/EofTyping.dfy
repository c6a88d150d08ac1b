/** Stack-height typing of one EOF code section, stated without reference to how it is computed.

    A section is seen as a sequence of optional decoded instructions, one entry per byte; only the
    entries at instruction starts matter. A typing gives every instruction start the smallest and
    biggest stack height it can be entered with. */
module EofTyping {
  import opened Prelude

  /** What validation needs to know of the instruction at one position: its length, the stack items
      it needs, the biggest height it may be entered with (if limited), how it moves the height, the absolute
      positions it may jump to, and whether control never falls through it. */
  datatype Instr = Instr(size: nat, need: int, cap: Option<int>, diff: int, targets: seq<int>, terminating: bool)

  type Section = seq<Option<Instr>>

  datatype Heights = Heights(smallest: int, biggest: int) {
    function Shift(d: int): Heights {
      Heights(smallest + d, biggest + d)
    }

    function Join(other: Heights): Heights {
      Heights(Min(smallest, other.smallest), Max(biggest, other.biggest))
    }

    predicate Covers(other: Heights) {
      smallest <= other.smallest && other.biggest <= biggest
    }

    predicate Contains(h: int) {
      smallest <= h <= biggest
    }
  }

  type Typing = seq<Heights>

  /** Position p is reached from `from` by stepping over whole instructions. */
  predicate StartFrom(s: Section, from: nat, p: nat)
    decreases |s| - from
  {
    from == p ||
    (from < p && from < |s| && s[from].Some? && s[from].value.size > 0
     && StartFrom(s, from + s[from].value.size, p))
  }

  predicate Start(s: Section, p: nat) {
    StartFrom(s, 0, p)
  }

  predicate IsInstr(s: Section, p: int) {
    0 <= p < |s| && Start(s, p) && s[p].Some? && s[p].value.size > 0
  }

  /** Control may pass from the instruction at p to position t. */
  predicate Edge(s: Section, p: int, t: int)
    requires IsInstr(s, p)
  {
    t in s[p].value.targets || (!s[p].value.terminating && t == p + s[p].value.size)
  }

  function Out(s: Section, ty: Typing, p: int): Heights
    requires IsInstr(s, p) && |ty| == |s|
  {
    ty[p].Shift(s[p].value.diff)
  }

  /** The heights leaving p fit the heights recorded at t: a forward edge may only widen them, a
      backward edge must find them equal. */
  predicate Fits(s: Section, ty: Typing, p: int, t: int)
    requires IsInstr(s, p) && |ty| == |s| && 0 <= t < |s|
  {
    if t <= p then ty[t] == Out(s, ty, p) else ty[t].Covers(Out(s, ty, p))
  }

  predicate WithinCap(instr: Instr, biggest: int) {
    instr.cap.Some? ==> biggest <= instr.cap.value
  }

  predicate NodeOk(s: Section, ty: Typing, p: int)
    requires 0 <= p < |s| && |ty| == |s|
  {
    && IsInstr(s, p)
    && p + s[p].value.size <= |s|
    && s[p].value.need <= ty[p].smallest
    && WithinCap(s[p].value, ty[p].biggest)
    && (!s[p].value.terminating ==> p + s[p].value.size < |s| && Fits(s, ty, p, p + s[p].value.size))
    && (forall t :: t in s[p].value.targets ==> 0 <= t < |s| && Start(s, t) && Fits(s, ty, p, t))
  }

  predicate ForwardEdge(s: Section, j: int, q: int) {
    0 <= j < q && IsInstr(s, j) && Edge(s, j, q)
  }

  /** Each bound recorded at q comes from some earlier instruction. */
  ghost predicate Attained(s: Section, ty: Typing, q: int)
    requires 0 <= q < |s| && |ty| == |s|
  {
    && (exists j :: ForwardEdge(s, j, q) && ty[q].smallest == Out(s, ty, j).smallest)
    && (exists j :: ForwardEdge(s, j, q) && ty[q].biggest == Out(s, ty, j).biggest)
  }

  ghost predicate MaxHeight(s: Section, ty: Typing, m: int)
    requires |ty| == |s|
  {
    && 0 <= m
    && (forall p :: 0 <= p < |s| && Start(s, p) ==> ty[p].biggest <= m)
    && (m == 0 || exists p :: 0 <= p < |s| && Start(s, p) && ty[p].biggest == m)
  }

  /** `ty` types section s entered with `inputs` items, and m is the highest it ever gets. */
  ghost predicate IsTyping(s: Section, inputs: int, m: int, ty: Typing) {
    && |ty| == |s| > 0
    && ty[0] == Heights(inputs, inputs)
    && (forall p {:trigger NodeOk(s, ty, p)} :: 0 <= p < |s| && Start(s, p) ==> NodeOk(s, ty, p))
    && (forall q {:trigger Attained(s, ty, q)} :: 0 < q < |s| && Start(s, q) ==> Attained(s, ty, q))
    && MaxHeight(s, ty, m)
  }

  ghost predicate Typable(s: Section, inputs: int, m: int) {
    exists ty :: IsTyping(s, inputs, m, ty)
  }

  // ---- Instruction starts ----

  lemma {:induction false} StartStep(s: Section, from: nat, p: nat)
    requires StartFrom(s, from, p) && p < |s| && s[p].Some? && s[p].value.size > 0
    ensures StartFrom(s, from, p + s[p].value.size)
    decreases |s| - from
  {
    if from != p {
      StartStep(s, from + s[from].value.size, p);
    } else {
      assert StartFrom(s, p + s[p].value.size, p + s[p].value.size);
    }
  }

  /** Nothing strictly inside an instruction is a start. */
  lemma {:induction false} NoStartInside(s: Section, from: nat, p: nat, q: nat)
    requires StartFrom(s, from, p) && p < |s| && s[p].Some? && s[p].value.size > 0
    requires p < q < p + s[p].value.size
    ensures !StartFrom(s, from, q)
    decreases |s| - from
  {
    if from != p {
      NoStartInside(s, from + s[from].value.size, p, q);
    }
  }

  /** The start just before a later start q is the one whose instruction ends at q. */
  lemma {:induction false} Predecessor(s: Section, from: nat, q: nat) returns (p: nat)
    requires StartFrom(s, from, q) && from < q
    ensures StartFrom(s, from, p) && p < q && p < |s| && s[p].Some? && s[p].value.size > 0
    ensures p + s[p].value.size == q
    decreases |s| - from
  {
    var n := from + s[from].value.size;
    if n == q {
      p := from;
    } else {
      p := Predecessor(s, n, q);
    }
  }

  // ---- Heights are determined ----

  lemma ForwardCovers(s: Section, ty: Typing, j: int, q: int)
    requires |ty| == |s| && q < |s| && ForwardEdge(s, j, q) && NodeOk(s, ty, j)
    ensures ty[q].Covers(Out(s, ty, j))
  {
  }

  /** Two typings agree at every start: the heights are a property of the section. */
  lemma {:induction false} TypingUnique(s: Section, inputs: int, m1: int, m2: int, ty1: Typing, ty2: Typing, q: nat)
    requires IsTyping(s, inputs, m1, ty1) && IsTyping(s, inputs, m2, ty2)
    requires q < |s| && Start(s, q)
    ensures ty1[q] == ty2[q]
    decreases q
  {
    if q > 0 {
      forall j | ForwardEdge(s, j, q)
        ensures ty1[j] == ty2[j] && ty1[q].Covers(Out(s, ty1, j)) && ty2[q].Covers(Out(s, ty1, j))
      {
        TypingUnique(s, inputs, m1, m2, ty1, ty2, j);
        ForwardCovers(s, ty1, j, q);
        ForwardCovers(s, ty2, j, q);
      }
      assert Attained(s, ty1, q) && Attained(s, ty2, q);
    }
  }

  lemma {:induction false} MaxUnique(s: Section, inputs: int, m1: int, m2: int, ty1: Typing, ty2: Typing)
    requires IsTyping(s, inputs, m1, ty1) && IsTyping(s, inputs, m2, ty2)
    ensures m1 == m2
  {
    forall p: int | 0 <= p < |s| && Start(s, p) ensures ty1[p] == ty2[p] {
      TypingUnique(s, inputs, m1, m2, ty1, ty2, p);
    }
  }

  // ---- Paths through a section ----

  datatype Point = Point(pc: int, height: int)

  predicate Hop(s: Section, a: Point, b: Point) {
    IsInstr(s, a.pc) && Edge(s, a.pc, b.pc) && b.height == a.height + s[a.pc].value.diff
  }

  /** A path from the section's entry, each call taken as one step. */
  predicate IsPath(s: Section, inputs: int, path: seq<Point>) {
    && |path| > 0
    && (if |path| == 1 then path[0] == Point(0, inputs)
        else IsPath(s, inputs, path[..|path| - 1]) && Hop(s, path[|path| - 2], path[|path| - 1]))
  }

  lemma HopIsTyped(s: Section, inputs: int, m: int, ty: Typing, a: Point, b: Point)
    requires IsTyping(s, inputs, m, ty) && Hop(s, a, b) && ty[a.pc].Contains(a.height)
    ensures 0 <= b.pc < |s| && Start(s, b.pc) && ty[b.pc].Contains(b.height)
  {
    assert NodeOk(s, ty, a.pc);
    if b.pc !in s[a.pc].value.targets {
      StartStep(s, 0, a.pc);
    }
  }

  /** Soundness: on every path of a typed section the pc is always an instruction start inside the
      code, the height lies between the recorded bounds, the instruction has the items it needs, and
      the height never exceeds the declared maximum. */
  lemma {:induction false} PathsAreTyped(s: Section, inputs: int, m: int, ty: Typing, path: seq<Point>)
    requires IsTyping(s, inputs, m, ty) && IsPath(s, inputs, path)
    ensures var last := path[|path| - 1];
            && IsInstr(s, last.pc)
            && ty[last.pc].Contains(last.height)
            && s[last.pc].value.need <= last.height && WithinCap(s[last.pc].value, last.height)
            && last.height <= m
    decreases |path|
  {
    var last := path[|path| - 1];
    if |path| > 1 {
      var before := path[..|path| - 1];
      PathsAreTyped(s, inputs, m, ty, before);
      HopIsTyped(s, inputs, m, ty, before[|before| - 1], last);
    }
    assert NodeOk(s, ty, last.pc);
  }

  /** The bounds are tight: some path enters q with the smallest recorded height, and some with the
      biggest. In particular every instruction is reached. */
  lemma {:induction false} BoundsAreReached(s: Section, inputs: int, m: int, ty: Typing, q: nat, big: bool) returns (path: seq<Point>)
    requires IsTyping(s, inputs, m, ty) && q < |s| && Start(s, q)
    ensures IsPath(s, inputs, path)
    ensures path[|path| - 1] == Point(q, if big then ty[q].biggest else ty[q].smallest)
    decreases q
  {
    if q == 0 {
      path := [Point(0, inputs)];
    } else {
      assert Attained(s, ty, q);
      var j: int :| ForwardEdge(s, j, q) && (if big then ty[q].biggest == Out(s, ty, j).biggest
                                            else ty[q].smallest == Out(s, ty, j).smallest);
      var before := BoundsAreReached(s, inputs, m, ty, j, big);
      var point := Point(q, if big then ty[q].biggest else ty[q].smallest);
      path := before + [point];
      assert path[..|path| - 1] == before;
    }
  }
}

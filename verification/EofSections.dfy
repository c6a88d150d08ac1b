/** The worklist over the code sections of an EOF container. */
module EofSections {
  import opened Prelude
  import opened EofTyping
  import opened EofDecode
  import opened EofValidator

  datatype Eof = Eof(types: seq<Types>, codes: seq<Code>, dataSize: nat, containers: nat)

  function Context(eof: Eof): Ctx {
    Ctx(eof.types, eof.dataSize, eof.containers)
  }

  predicate IsSection(eof: Eof, k: int) {
    0 <= k < |eof.codes| == |eof.types|
  }

  function DecodedSection(eof: Eof, k: nat): Section
    requires IsSection(eof, k)
  {
    Decoded(Context(eof), k, eof.codes[k])
  }

  ghost predicate SectionOk(eof: Eof, k: nat)
    requires IsSection(eof, k)
  {
    ValidSection(Context(eof), k, eof.codes[k])
  }

  /** Sections that section k calls or jumps to. */
  function Invoked(eof: Eof, k: nat): set<nat>
    requires IsSection(eof, k)
  {
    Accessed(DecodedSection(eof, k), eof.codes[k])
  }

  /** A path of CALLF and JUMPF edges from section 0. */
  ghost predicate Chain(eof: Eof, path: seq<nat>)
    requires |eof.codes| == |eof.types|
  {
    && |path| > 0
    && (if |path| == 1 then path[0] == 0
        else
          && Chain(eof, path[..|path| - 1])
          && IsSection(eof, path[|path| - 2]) && path[|path| - 1] in Invoked(eof, path[|path| - 2]))
  }

  ghost predicate Reachable(eof: Eof, k: nat)
    requires |eof.codes| == |eof.types|
  {
    exists path :: Chain(eof, path) && path[|path| - 1] == k
  }

  ghost predicate ValidEof(eof: Eof) {
    && |eof.codes| == |eof.types| > 0
    && eof.types[0].inputs == 0 && eof.types[0].outputs == NON_RETURNING
    && forall k :: 0 <= k < |eof.codes| ==> SectionOk(eof, k) && Reachable(eof, k)
  }

  lemma ReachableStep(eof: Eof, k: nat, next: nat)
    requires IsSection(eof, k) && Reachable(eof, k) && next in Invoked(eof, k)
    ensures Reachable(eof, next)
  {
    var path :| Chain(eof, path) && path[|path| - 1] == k;
    var longer := path + [next];
    assert longer[..|longer| - 1] == path;
    assert Chain(eof, longer);
  }

  /** A valid section invokes only sections that exist. */
  lemma InvokedExists(eof: Eof, k: nat, next: nat)
    requires IsSection(eof, k) && next in Invoked(eof, k)
    ensures IsSection(eof, next)
  {
    var s, code := DecodedSection(eof, k), eof.codes[k];
    var p: nat :| p < |code| && IsInstr(s, p) && Invokes(code, p) && next == U16(code, p + 1);
    assert s[p] == Decode(Context(eof), k, code, p);
  }

  predicate InvokedQueued(eof: Eof, queued: seq<bool>, k: nat)
    requires IsSection(eof, k)
  {
    forall next :: next in Invoked(eof, k) ==> next < |queued| && queued[next]
  }

  /** A set of sections that holds 0 and is closed under invocation holds every reachable one. */
  lemma {:induction false} ChainStays(eof: Eof, queued: seq<bool>, path: seq<nat>)
    requires |queued| == |eof.codes| == |eof.types| > 0 && queued[0]
    requires forall k {:trigger InvokedQueued(eof, queued, k)} :: 0 <= k < |queued| && queued[k] ==> InvokedQueued(eof, queued, k)
    requires Chain(eof, path)
    ensures path[|path| - 1] < |queued| && queued[path[|path| - 1]]
    decreases |path|
  {
    if |path| > 1 {
      ChainStays(eof, queued, path[..|path| - 1]);
      assert InvokedQueued(eof, queued, path[|path| - 2]);
    }
  }

  /** Sections validated so far, in order, and sections waiting: no section ever appears twice. */
  ghost predicate Bookkeeping(eof: Eof, queued: seq<bool>, queue: seq<nat>, order: seq<nat>) {
    && |queued| == |eof.codes| == |eof.types| > 0 && queued[0]
    && Distinct(order + queue)
    && (forall k :: 0 <= k < |queued| ==> (queued[k] <==> k in order + queue))
    && (forall k :: k in order + queue ==> k < |queued| && Reachable(eof, k))
  }

  /** Every section in `order` is valid, and what it invokes has been queued. */
  ghost predicate Processed(eof: Eof, queued: seq<bool>, order: seq<nat>) {
    && |queued| == |eof.codes| == |eof.types|
    && (forall k :: k in order ==> k < |queued| && SectionOk(eof, k))
    && (forall k {:trigger InvokedQueued(eof, queued, k)} :: k in order ==> InvokedQueued(eof, queued, k))
  }

  /** Sections not queued yet. */
  function Waiting(queued: seq<bool>): nat {
    if queued == [] then 0 else (if queued[0] then 0 else 1) + Waiting(queued[1..])
  }

  lemma {:induction false} WaitingFalls(queued: seq<bool>, k: nat)
    requires k < |queued| && !queued[k]
    ensures Waiting(queued[k := true]) == Waiting(queued) - 1
  {
    if k == 0 {
      assert queued[0 := true][1..] == queued[1..];
    } else {
      assert queued[k := true][1..] == queued[1..][k - 1 := true];
      WaitingFalls(queued[1..], k - 1);
    }
  }

  /** Queues every section of `found` that was not queued before. */
  method Enqueue(eof: Eof, found: set<nat>, queued: seq<bool>, queue: seq<nat>, ghost order: seq<nat>)
    returns (queued': seq<bool>, queue': seq<nat>)
    requires Bookkeeping(eof, queued, queue, order)
    requires forall k :: k in found ==> k < |queued| && Reachable(eof, k)
    ensures Bookkeeping(eof, queued', queue', order)
    ensures forall k :: 0 <= k < |queued| && queued[k] ==> queued'[k]
    ensures forall k :: k in found ==> k < |queued'| && queued'[k]
    ensures Waiting(queued') + |queue'| == Waiting(queued) + |queue|
  {
    queued', queue' := queued, queue;
    var pending := found;
    while pending != {}
      invariant pending <= found
      invariant Bookkeeping(eof, queued', queue', order)
      invariant forall k :: 0 <= k < |queued| && queued[k] ==> queued'[k]
      invariant forall k :: k in found - pending ==> k < |queued'| && queued'[k]
      invariant Waiting(queued') + |queue'| == Waiting(queued) + |queue|
    {
      var k :| k in pending;
      pending := pending - {k};
      if !queued'[k] {
        assert order + (queue' + [k]) == (order + queue') + [k];
        WaitingFalls(queued', k);
        queued', queue' := queued'[k := true], queue' + [k];
      }
    }
  }

  /** The verdict once nothing waits. */
  lemma Finished(eof: Eof, queued: seq<bool>, order: seq<nat>)
    requires Bookkeeping(eof, queued, [], order) && Processed(eof, queued, order)
    requires eof.types[0].inputs == 0 && eof.types[0].outputs == NON_RETURNING
    ensures ValidEof(eof) <==> forall k :: 0 <= k < |queued| ==> queued[k]
    ensures forall k :: 0 <= k < |queued| && queued[k] ==> k in order
  {
    assert order + [] == order;
    forall k | 0 <= k < |queued| && queued[k] ensures InvokedQueued(eof, queued, k) {
      assert k in order;
    }
    forall k | 0 <= k < |queued| && Reachable(eof, k) ensures queued[k] {
      var path :| Chain(eof, path) && path[|path| - 1] == k;
      ChainStays(eof, queued, path);
    }
  }

  /** The section taken from the queue has been found valid. */
  lemma Take(eof: Eof, queued: seq<bool>, queue: seq<nat>, order: seq<nat>, k: nat)
    requires Bookkeeping(eof, queued, queue + [k], order) && k < |queued| && SectionOk(eof, k)
    ensures Bookkeeping(eof, queued, queue, order + [k])
    ensures Distinct(order + [k])
    ensures forall next :: next in Invoked(eof, k) ==> IsSection(eof, next) && Reachable(eof, next)
  {
    MoveToOrder(order, queue, k);
    assert k in order + (queue + [k]);
    assert forall i :: 0 <= i < |order + [k]| ==> (order + [k])[i] == ((order + [k]) + queue)[i];
    forall next | next in Invoked(eof, k) ensures IsSection(eof, next) && Reachable(eof, next) {
      InvokedExists(eof, k, next);
      ReachableStep(eof, k, next);
    }
  }

  lemma ProcessedGrows(eof: Eof, queued: seq<bool>, queued': seq<bool>, order: seq<nat>, k: nat)
    requires Processed(eof, queued, order) && |queued'| == |queued| && k < |queued| && SectionOk(eof, k)
    requires forall n :: 0 <= n < |queued| && queued[n] ==> queued'[n]
    requires forall n :: n in Invoked(eof, k) ==> n < |queued'| && queued'[n]
    ensures Processed(eof, queued', order + [k])
  {
    forall m | m in order + [k] ensures m < |queued'| && SectionOk(eof, m) && InvokedQueued(eof, queued', m) {
      if m != k {
        assert m in order && InvokedQueued(eof, queued, m);
      }
    }
  }

  lemma Begin(eof: Eof, queued: seq<bool>)
    requires |queued| == |eof.codes| == |eof.types| > 0
    requires forall k :: 0 <= k < |queued| ==> (queued[k] <==> k == 0)
    ensures Bookkeeping(eof, queued, [0], []) && Processed(eof, queued, [])
  {
    assert Chain(eof, [0]);
    assert [] + [0] == [0];
  }

  /** The method accepts exactly the containers whose sections are all valid and reachable from
      section 0; `order` lists the sections in the order validated, none of them twice. */
  method ValidateEofCodes(eof: Eof) returns (r: Result<(), EofError>, ghost order: seq<nat>)
    ensures r.Ok? <==> ValidEof(eof)
    ensures Distinct(order) && forall k :: k in order ==> IsSection(eof, k)
    ensures r.Ok? ==> forall k :: 0 <= k < |eof.codes| ==> k in order
  {
    order := [];
    var queued := seq(|eof.codes|, k => false);
    if |eof.codes| != |eof.types| { return Err(InvalidTypesSection), order; }
    if |eof.codes| == 0 { return Err(NoCodeSections), order; }
    queued := queued[0 := true];
    if eof.types[0].inputs != 0 || eof.types[0].outputs != NON_RETURNING { return Err(InvalidTypesSection), order; }
    var queue: seq<nat> := [0];
    Begin(eof, queued);
    while queue != []
      invariant Bookkeeping(eof, queued, queue, order) && Processed(eof, queued, order)
      invariant Distinct(order)
      decreases Waiting(queued) + |queue|
    {
      var k := queue[|queue| - 1];
      assert k in order + queue;
      assert queue == queue[..|queue| - 1] + [k];
      queue := queue[..|queue| - 1];
      var validated := ValidateEofCode(eof.codes[k], eof.dataSize, k, eof.containers, eof.types);
      if validated.Err? {
        assert !SectionOk(eof, k);
        return Err(validated.error), order;
      }
      Take(eof, queued, queue, order, k);
      order := order + [k];
      var queued', queue' := Enqueue(eof, validated.value, queued, queue, order);
      ProcessedGrows(eof, queued, queued', order[..|order| - 1], k);
      assert order[..|order| - 1] + [k] == order;
      queued, queue := queued', queue';
    }
    Finished(eof, queued, order);
    if exists k :: 0 <= k < |queued| && !queued[k] { return Err(CodeSectionNotAccessed), order; }
    r := Ok(());
  }

  lemma MoveToOrder(order: seq<nat>, queue: seq<nat>, k: nat)
    requires Distinct(order + (queue + [k]))
    ensures Distinct((order + [k]) + queue)
    ensures forall x :: x in order + (queue + [k]) <==> x in (order + [k]) + queue
  {
    var a, b := order + (queue + [k]), (order + [k]) + queue;
    forall i, j | 0 <= i < j < |b| ensures b[i] != b[j] {
      var i' := if i < |order| then i else if i == |order| then |a| - 1 else i - 1;
      var j' := if j < |order| then j else if j == |order| then |a| - 1 else j - 1;
      assert b[i] == a[i'] && b[j] == a[j'];
    }
  }
}

/** The file-system calls a tiling run makes, and how a planned sequence of
    them runs against a file system that may fail. Pixels are not modelled:
    a tile is saved as the event naming its file, the target size handed to
    `resize` and the rectangle handed to `crop`. Whether a call fails is
    decided by an oracle that sees the calls completed before it. */
module Runs {
  import opened Results

  /** The rectangle handed to `crop`: corner and size. */
  datatype Crop = Crop(x: nat, y: nat, width: nat, height: nat)

  /** A file-system call of the run. `SaveTile` records the arguments of
      the calls behind one tile: the target size levelWidth x levelHeight
      handed to `resize`, and the rectangle handed to `crop`. */
  datatype Event =
    | CreateDirAll(dir: seq<string>)
    | SaveTile(file: seq<string>, level: nat, col: nat, row: nat, levelWidth: nat, levelHeight: nat, crop: Crop)
    | CreateFile(file: seq<string>)
    | WriteAll(file: seq<string>, text: string)

  /** A step of a planned run: a file-system call, or an error the tiler
      raises itself. */
  datatype Step = Perform(event: Event) | Abort(error: TilingError)

  /** oracle(done, e): the call e fails after the calls done completed. */
  type IoOracle = (seq<Event>, Event) -> bool

  /** The error a failing call turns into: `save` reports an `ImageError`,
      the calls of `std::fs` an `IOError`. */
  function FailureOf(e: Event): (error: TilingError)
    ensures error == ImageError <==> e.SaveTile?
    ensures error == IOError <==> !e.SaveTile?
  {
    if e.SaveTile? then ImageError else IOError
  }

  /** How a run ended, and the calls it completed. */
  datatype Run = Run(outcome: Result<()>, done: seq<Event>)

  /** Runs a plan after the calls `done`: each call is made in turn, the
      first failing call or tiler error ends the run with that error, and
      nothing after it is attempted. */
  function Execute(plan: seq<Step>, fails: IoOracle, done: seq<Event>): (r: Run)
    ensures done <= r.done
    ensures |r.done| <= |done| + |plan|
    decreases |plan|
  {
    if plan == [] then Run(Ok(()), done)
    else match plan[0]
      case Abort(e) => Run(Err(e), done)
      case Perform(e) =>
        if fails(done, e) then Run(Err(FailureOf(e)), done)
        else Execute(plan[1..], fails, done + [e])
  }

  predicate PerformsOnly(plan: seq<Step>) {
    forall i :: 0 <= i < |plan| ==> plan[i].Perform?
  }

  function EventsOf(plan: seq<Step>): (events: seq<Event>)
    requires PerformsOnly(plan)
  {
    seq(|plan|, i requires 0 <= i < |plan| => plan[i].event)
  }

  /** Step s ends a run that has completed the calls done, with error e. */
  predicate StopsWith(s: Step, fails: IoOracle, done: seq<Event>, e: TilingError) {
    match s
    case Abort(e') => e == e'
    case Perform(ev) => fails(done, ev) && e == FailureOf(ev)
  }

  /** A run completes the first k steps of its plan, all of them calls, and
      then either has run the whole plan and succeeds, or stops at step k
      with that step's error. */
  lemma {:induction false} ExecuteStopsAtFirstFailure(plan: seq<Step>, fails: IoOracle, done: seq<Event>)
    returns (k: nat)
    ensures var r := Execute(plan, fails, done);
      && k <= |plan|
      && PerformsOnly(plan[..k])
      && r.done == done + EventsOf(plan[..k])
      && (r.outcome.Ok? <==> k == |plan|)
      && (k < |plan| ==> StopsWith(plan[k], fails, r.done, r.outcome.error))
    decreases |plan|
  {
    if plan == [] {
      k := 0;
      assert EventsOf(plan[..0]) == [];
    } else if plan[0].Abort? || fails(done, plan[0].event) {
      k := 0;
      assert EventsOf(plan[..0]) == [];
    } else {
      var e := plan[0].event;
      var k' := ExecuteStopsAtFirstFailure(plan[1..], fails, done + [e]);
      k := k' + 1;
      assert plan[..k] == [plan[0]] + plan[1..][..k'];
      assert EventsOf(plan[..k]) == [e] + EventsOf(plan[1..][..k']);
      assert k < |plan| ==> plan[k] == plan[1..][k'];
    }
  }

  /** A plan of calls only, on a file system where no call fails, runs to
      its end and completes every call in order. */
  lemma {:induction false} ExecuteWithoutFailures(plan: seq<Step>, fails: IoOracle, done: seq<Event>)
    requires PerformsOnly(plan)
    requires forall d, e :: !fails(d, e)
    ensures Execute(plan, fails, done) == Run(Ok(()), done + EventsOf(plan))
    decreases |plan|
  {
    if plan == [] {
      assert EventsOf(plan) == [];
    } else {
      var e := plan[0].event;
      assert PerformsOnly(plan[1..]) by {
        forall i | 0 <= i < |plan[1..]| ensures plan[1..][i].Perform? {
          assert plan[1..][i] == plan[i + 1];
        }
      }
      ExecuteWithoutFailures(plan[1..], fails, done + [e]);
      assert EventsOf(plan) == [e] + EventsOf(plan[1..]);
    }
  }

  /** Running two plans one after the other is running the first and, if
      it succeeded, the second after it. */
  lemma {:induction false} ExecuteAppend(a: seq<Step>, b: seq<Step>, fails: IoOracle, done: seq<Event>)
    ensures Execute(a + b, fails, done) ==
      var ra := Execute(a, fails, done);
      if ra.outcome.Err? then ra else Execute(b, fails, ra.done)
    decreases |a|
  {
    if a == [] {
      assert a + b == b;
    } else {
      assert (a + b)[0] == a[0];
      assert (a + b)[1..] == a[1..] + b;
      if a[0].Perform? && !fails(done, a[0].event) {
        ExecuteAppend(a[1..], b, fails, done + [a[0].event]);
      }
    }
  }

  /** When the first plan never makes the call e, a run of both plans that
      has made e has run the first plan to its end without error. */
  lemma ExecuteAppendReaches(a: seq<Step>, b: seq<Step>, fails: IoOracle, done: seq<Event>, e: Event)
    requires forall i :: 0 <= i < |a| && a[i].Perform? ==> a[i].event != e
    ensures var r, ra := Execute(a + b, fails, done), Execute(a, fails, done);
      e in r.done[|done|..] ==> ra.outcome.Ok? && ra.done <= r.done
  {
    ExecuteAppend(a, b, fails, done);
    var ra := Execute(a, fails, done);
    if ra.outcome.Err? {
      var k := ExecuteStopsAtFirstFailure(a, fails, done);
      var made := EventsOf(a[..k]);
      assert ra.done[|done|..] == made;
      forall m | 0 <= m < |made|
        ensures made[m] != e
      {
        assert a[..k][m] == a[m];
      }
    }
  }

  /** Making a call that succeeds and then running the rest. */
  lemma ExecutePerform(e: Event, rest: seq<Step>, fails: IoOracle, done: seq<Event>)
    requires !fails(done, e)
    ensures Execute([Perform(e)] + rest, fails, done) == Execute(rest, fails, done + [e])
  {
    assert ([Perform(e)] + rest)[1..] == rest;
  }

  /** A call that fails ends the run with its error. */
  lemma ExecuteFailing(e: Event, rest: seq<Step>, fails: IoOracle, done: seq<Event>)
    requires fails(done, e)
    ensures Execute([Perform(e)] + rest, fails, done) == Run(Err(FailureOf(e)), done)
  {
  }

  /** An error of the tiler ends the run. */
  lemma ExecuteAbort(error: TilingError, rest: seq<Step>, fails: IoOracle, done: seq<Event>)
    ensures Execute([Abort(error)] + rest, fails, done) == Run(Err(error), done)
  {
  }

  // ---------------------------------------------------------------------
  // Plans made of blocks: the tiles of a column, the columns of a level,
  // the levels of the pyramid.

  /** The blocks one after the other. */
  function Concat(blocks: seq<seq<Step>>): seq<Step> {
    if blocks == [] then [] else blocks[0] + Concat(blocks[1..])
  }

  /** Where block l begins in `Concat(blocks)`. */
  function Offset(blocks: seq<seq<Step>>, l: nat): nat
    requires l <= |blocks|
  {
    if l == 0 then 0 else Offset(blocks, l - 1) + |blocks[l - 1]|
  }

  /** The blocks from i on: block i, then the rest. */
  lemma ConcatFromStep(blocks: seq<seq<Step>>, i: nat)
    requires i < |blocks|
    ensures Concat(blocks[i..]) == blocks[i] + Concat(blocks[i + 1..])
  {
    assert blocks[i..][0] == blocks[i];
    assert blocks[i..][1..] == blocks[i + 1..];
  }

  lemma ConcatFromEnd(blocks: seq<seq<Step>>)
    ensures Concat(blocks[|blocks|..]) == []
  {
    assert blocks[|blocks|..] == [];
  }

  /** Cutting the concatenation at block l's offset leaves the blocks from l
      on. */
  lemma {:induction false} ConcatFrom(blocks: seq<seq<Step>>, l: nat)
    requires l <= |blocks|
    ensures Offset(blocks, l) <= |Concat(blocks)|
    ensures Concat(blocks)[Offset(blocks, l)..] == Concat(blocks[l..])
  {
    if l == 0 {
      assert blocks[0..] == blocks;
    } else {
      ConcatFrom(blocks, l - 1);
      ConcatFromStep(blocks, l - 1);
      var all, start := Concat(blocks), Offset(blocks, l - 1);
      assert all[start + |blocks[l - 1]|..] == all[start..][|blocks[l - 1]|..];
    }
  }

  lemma ConcatLength(blocks: seq<seq<Step>>)
    ensures |Concat(blocks)| == Offset(blocks, |blocks|)
  {
    ConcatFrom(blocks, |blocks|);
    ConcatFromEnd(blocks);
  }

  /** Block l sits between its offset and the next one. */
  lemma ConcatBlock(blocks: seq<seq<Step>>, l: nat)
    requires l < |blocks|
    ensures Offset(blocks, l + 1) <= |Concat(blocks)|
    ensures Concat(blocks)[Offset(blocks, l)..Offset(blocks, l + 1)] == blocks[l]
  {
    ConcatFrom(blocks, l);
    ConcatFrom(blocks, l + 1);
    ConcatFromStep(blocks, l);
    var all, start := Concat(blocks), Offset(blocks, l);
    assert all[start..start + |blocks[l]|] == all[start..][..|blocks[l]|];
  }

  /** Step j of block l is step Offset(l) + j of the whole. */
  lemma ConcatAt(blocks: seq<seq<Step>>, l: nat, j: nat)
    requires l < |blocks| && j < |blocks[l]|
    ensures Offset(blocks, l) + j < |Concat(blocks)|
    ensures Concat(blocks)[Offset(blocks, l) + j] == blocks[l][j]
  {
    ConcatBlock(blocks, l);
    var all, start := Concat(blocks), Offset(blocks, l);
    assert all[start..start + |blocks[l]|][j] == all[start + j];
  }

  /** Every step of the whole belongs to one block from `from` on. */
  lemma {:induction false} BlockOf(blocks: seq<seq<Step>>, from: nat, i: nat) returns (l: nat)
    requires from <= |blocks|
    requires Offset(blocks, from) <= i < |Concat(blocks)|
    ensures from <= l < |blocks|
    ensures Offset(blocks, l) <= i < Offset(blocks, l + 1)
    decreases |blocks| - from
  {
    ConcatLength(blocks);
    if i < Offset(blocks, from + 1) {
      l := from;
    } else {
      l := BlockOf(blocks, from + 1, i);
    }
  }

  /** A step of the blocks, in the whole followed by more steps, is a step
      of one block. */
  lemma BlockOfThen(blocks: seq<seq<Step>>, tail: seq<Step>, i: nat) returns (l: nat)
    requires i < Offset(blocks, |blocks|)
    ensures |Concat(blocks) + tail| == Offset(blocks, |blocks|) + |tail|
    ensures l < |blocks| && Offset(blocks, l) <= i < Offset(blocks, l + 1)
    ensures (Concat(blocks) + tail)[i] == blocks[l][i - Offset(blocks, l)]
  {
    ConcatLength(blocks);
    l := BlockOf(blocks, 0, i);
    ConcatAt(blocks, l, i - Offset(blocks, l));
  }

  /** With blocks all of one width, block l begins at l * width. */
  lemma {:induction false} UniformOffset(blocks: seq<seq<Step>>, width: nat, l: nat)
    requires forall c :: 0 <= c < |blocks| ==> |blocks[c]| == width
    requires l <= |blocks|
    ensures Offset(blocks, l) == l * width
  {
    if l > 0 {
      UniformOffset(blocks, width, l - 1);
      assert l * width == (l - 1) * width + width;
    }
  }

  lemma SliceAt(s: seq<Step>, a: nat, b: nat, k: nat)
    requires a <= b <= |s| && k < b - a
    ensures s[a..b][k] == s[a + k]
  {
  }
}

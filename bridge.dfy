/** The GUI task bridge of the CAD addon: a request queue of closures that
    the RPC thread fills, a response queue the RPC thread takes results from,
    and a drain tick that runs on the GUI thread under a single-shot timer.

    A closure is a task of type `T`; running it on the GUI thread is the total
    function `step`, which turns the GUI-owned state `S` into its new state and
    a result. A result equal to `Null` (Python's None) puts nothing on the
    response queue. */
module Bridge {

  import opened Values

  /** What the GUI thread did, in order: ran a task, or re-armed its timer. */
  datatype Event<T> = Ran(task: T) | Rearm

  /** What one result adds to the response queue: nothing for None. */
  function ReplyOf(v: Value): (r: seq<Value>)
    ensures Null !in r
    ensures v != Null ==> r == [v]
  {
    if v == Null then [] else [v]
  }

  /** Running the tasks `ts` in FIFO order from GUI state `s`: the final GUI
      state and the results that reach the response queue, in order. */
  function Drain<S, T>(s: S, ts: seq<T>, step: (S, T) -> (S, Value)): (r: (S, seq<Value>))
    ensures |r.1| <= |ts|
    ensures Null !in r.1
    decreases |ts|
  {
    if ts == [] then (s, [])
    else
      var (s1, v) := step(s, ts[0]);
      var (s2, rest) := Drain(s1, ts[1..], step);
      (s2, ReplyOf(v) + rest)
  }

  /** The result of the `i`-th task when `ts` is drained from state `s`:
      that task run on the state its predecessors left. */
  function StepReply<S, T>(s: S, ts: seq<T>, i: int, step: (S, T) -> (S, Value)): (r: Value)
    requires 0 <= i < |ts|
  {
    step(Drain(s, ts[..i], step).0, ts[i]).1
  }

  /** The trace of running `ts`, one event per task. */
  function RanAll<T>(ts: seq<T>): (r: seq<Event<T>>)
    ensures |r| == |ts|
    ensures forall i :: 0 <= i < |ts| ==> r[i] == Ran(ts[i])
  {
    seq(|ts|, i requires 0 <= i < |ts| => Ran(ts[i]))
  }

  lemma RanAllSnoc<T>(ts: seq<T>, t: T)
    ensures RanAll(ts + [t]) == RanAll(ts) + [Ran(t)]
  {
  }

  /** Draining one more task continues from where the others left off:
      this is what lets the drain loop be one task at a time. */
  lemma {:induction false} DrainSnoc<S, T>(s: S, ts: seq<T>, t: T, step: (S, T) -> (S, Value))
    ensures Drain(s, ts + [t], step)
         == (step(Drain(s, ts, step).0, t).0,
             Drain(s, ts, step).1 + ReplyOf(step(Drain(s, ts, step).0, t).1))
    decreases |ts|
  {
    if ts == [] {
      assert ts + [t] == [t];
      assert [t][1..] == [];
      assert Drain(s, ts, step) == (s, []);
      var (s1, v) := step(s, t);
      assert Drain(s1, [], step) == (s1, []);
      assert Drain(s, [t], step) == (s1, ReplyOf(v) + []);
      assert ReplyOf(v) + [] == [] + ReplyOf(v);
    } else {
      var (s1, v) := step(s, ts[0]);
      assert (ts + [t])[0] == ts[0];
      assert (ts + [t])[1..] == ts[1..] + [t];
      DrainSnoc(s1, ts[1..], t, step);
      var mid := Drain(s1, ts[1..], step);
      var (s3, w) := step(mid.0, t);
      assert Drain(s, ts, step) == (mid.0, ReplyOf(v) + mid.1);
      assert Drain(s, ts + [t], step)
          == (s3, ReplyOf(v) + (mid.1 + ReplyOf(w)));
      assert ReplyOf(v) + (mid.1 + ReplyOf(w)) == (ReplyOf(v) + mid.1) + ReplyOf(w);
    }
  }

  /** Exactly one reply per task, in submission order: when no task of the
      batch returns None, the response queue receives one result per task
      and the `i`-th result is the `i`-th task's. */
  lemma {:induction false} RepliesInSubmissionOrder<S, T>(s: S, ts: seq<T>, step: (S, T) -> (S, Value))
    requires forall i :: 0 <= i < |ts| ==> StepReply(s, ts, i, step) != Null
    ensures |Drain(s, ts, step).1| == |ts|
    ensures forall i :: 0 <= i < |ts| ==> Drain(s, ts, step).1[i] == StepReply(s, ts, i, step)
    decreases |ts|
  {
    if ts != [] {
      var (s1, v) := step(s, ts[0]);
      assert ts[..0] == [];
      assert StepReply(s, ts, 0, step) == v;
      forall i | 1 <= i < |ts|
        ensures StepReply(s, ts, i, step) == StepReply(s1, ts[1..], i - 1, step)
      {
        assert ts[..i][0] == ts[0];
        assert ts[..i][1..] == ts[1..][..i - 1];
      }
      forall i | 0 <= i < |ts| - 1 ensures StepReply(s1, ts[1..], i, step) != Null {
        assert StepReply(s, ts, i + 1, step) != Null;
      }
      RepliesInSubmissionOrder(s1, ts[1..], step);
      var rest := Drain(s1, ts[1..], step).1;
      assert Drain(s, ts, step).1 == [v] + rest;
    }
  }

  /** A task whose closure returns None leaves its caller with nothing to
      take: its result never reaches the response queue. */
  lemma NoneNeverReplies<S, T>(s: S, t: T, step: (S, T) -> (S, Value))
    ensures Drain(s, [t], step).1 == [] <==> step(s, t).1 == Null
  {
    assert [t][1..] == [];
  }

  class Bridge<S, T> {
    /** rpc_request_queue: closures waiting for the GUI thread. */
    var requests: seq<T>
    /** rpc_response_queue: results waiting for the RPC thread. */
    var responses: seq<Value>
    /** The documents and views only the GUI thread may touch. */
    var gui: S
    /** Single-shot timers that will run the drain tick. */
    var pendingTimers: nat
    /** Everything the GUI thread has done, in order. */
    ghost var trace: seq<Event<T>>

    constructor (initial: S)
      ensures requests == [] && responses == [] && gui == initial
      ensures pendingTimers == 0 && trace == []
    {
      requests, responses, gui := [], [], initial;
      pendingTimers := 0;
      trace := [];
    }

    /** `QTimer.singleShot(500, process_gui_tasks)` issued from outside the tick. */
    method ArmTimer()
      modifies this
      ensures pendingTimers == old(pendingTimers) + 1
      ensures requests == old(requests) && responses == old(responses) && gui == old(gui)
      ensures trace == old(trace)
    {
      pendingTimers := pendingTimers + 1;
    }

    /** `rpc_request_queue.put(task)`. */
    method Put(t: T)
      modifies this
      ensures requests == old(requests) + [t]
      ensures responses == old(responses) && gui == old(gui)
      ensures pendingTimers == old(pendingTimers) && trace == old(trace)
    {
      requests := requests + [t];
    }

    /** `rpc_response_queue.get()`. The source blocks without a timeout; here
        the caller must know a result is waiting. */
    method Get() returns (v: Value)
      requires responses != []
      modifies this
      ensures v == old(responses)[0] && responses == old(responses)[1..]
      ensures requests == old(requests) && gui == old(gui)
      ensures pendingTimers == old(pendingTimers) && trace == old(trace)
    {
      v := responses[0];
      responses := responses[1..];
    }

    /** `process_gui_tasks`, fired by one pending timer: drain the request
        queue in FIFO order, push every result that is not None, and only
        then re-arm the timer. */
    method Tick(step: (S, T) -> (S, Value))
      requires pendingTimers > 0
      modifies this
      ensures requests == []
      ensures gui == Drain(old(gui), old(requests), step).0
      ensures responses == old(responses) + Drain(old(gui), old(requests), step).1
      ensures pendingTimers == old(pendingTimers)
      ensures trace == old(trace) + RanAll(old(requests)) + [Rearm]
    {
      pendingTimers := pendingTimers - 1;
      ghost var done: seq<T> := [];
      while requests != []
        invariant old(requests) == done + requests
        invariant gui == Drain(old(gui), done, step).0
        invariant responses == old(responses) + Drain(old(gui), done, step).1
        invariant trace == old(trace) + RanAll(done)
        invariant pendingTimers == old(pendingTimers) - 1
        decreases |requests|
      {
        var t := requests[0];
        assert old(requests) == (done + [t]) + requests[1..];
        requests := requests[1..];
        var (g, v) := step(gui, t);
        DrainSnoc(old(gui), done, t, step);
        RanAllSnoc(done, t);
        gui := g;
        responses := responses + ReplyOf(v);
        trace := trace + [Ran(t)];
        done := done + [t];
      }
      assert done == old(requests);
      pendingTimers := pendingTimers + 1;
      trace := trace + [Rearm];
    }

    /** One RPC call: put the closure, let the GUI thread tick, take the
        result. A closure that can return None would leave `Get` waiting
        forever; that case is the unmet second precondition. */
    method SubmitAndWait(t: T, step: (S, T) -> (S, Value)) returns (v: Value)
      requires requests == [] && responses == [] && pendingTimers > 0
      requires step(gui, t).1 != Null
      modifies this
      ensures v == step(old(gui), t).1 && gui == step(old(gui), t).0
      ensures requests == [] && responses == [] && pendingTimers == old(pendingTimers)
      ensures trace == old(trace) + [Ran(t), Rearm]
    {
      Put(t);
      Tick(step);
      assert old(requests) + [t] == [t];
      assert [t][1..] == [];
      v := Get();
    }

    /** Several callers each `put` a closure, in order. */
    method PutAll(ts: seq<T>)
      modifies this
      ensures requests == old(requests) + ts
      ensures responses == old(responses) && gui == old(gui)
      ensures pendingTimers == old(pendingTimers) && trace == old(trace)
    {
      var k := 0;
      while k < |ts|
        invariant 0 <= k <= |ts|
        invariant requests == old(requests) + ts[..k]
        invariant responses == old(responses) && gui == old(gui)
        invariant pendingTimers == old(pendingTimers) && trace == old(trace)
      {
        Put(ts[k]);
        assert ts[..k + 1] == ts[..k] + [ts[k]];
        k := k + 1;
      }
      assert ts[..|ts|] == ts;
    }

    /** `n` callers each `get` one result, in order. */
    method GetAll(n: nat) returns (rs: seq<Value>)
      requires n <= |responses|
      modifies this
      ensures rs == old(responses)[..n] && responses == old(responses)[n..]
      ensures requests == old(requests) && gui == old(gui)
      ensures pendingTimers == old(pendingTimers) && trace == old(trace)
    {
      rs := [];
      while |rs| < n
        invariant |rs| <= n
        invariant rs == old(responses)[..|rs|] && responses == old(responses)[|rs|..]
        invariant requests == old(requests) && gui == old(gui)
        invariant pendingTimers == old(pendingTimers) && trace == old(trace)
      {
        var v := Get();
        assert old(responses)[..|rs| + 1] == old(responses)[..|rs|] + [v];
        rs := rs + [v];
      }
    }

    /** Several RPC callers submit before the GUI thread ticks once; each
        then takes one result. The `i`-th caller receives the `i`-th
        submitted task's result. */
    method ServeTogether(ts: seq<T>, step: (S, T) -> (S, Value)) returns (rs: seq<Value>)
      requires requests == [] && responses == [] && pendingTimers > 0
      requires forall i :: 0 <= i < |ts| ==> StepReply(gui, ts, i, step) != Null
      modifies this
      ensures |rs| == |ts|
      ensures forall i :: 0 <= i < |ts| ==> rs[i] == StepReply(old(gui), ts, i, step)
      ensures gui == Drain(old(gui), ts, step).0
      ensures requests == [] && responses == []
    {
      PutAll(ts);
      assert requests == ts;
      Tick(step);
      RepliesInSubmissionOrder(old(gui), ts, step);
      assert responses == Drain(old(gui), ts, step).1;
      rs := GetAll(|ts|);
      assert rs == Drain(old(gui), ts, step).1;
    }
  }
}

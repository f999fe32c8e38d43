/** The calls a partial-results observer receives, as pure sequences.

    An observer call carries the original request, a result value and the
    isFinal flag. A drain of the queue produces one call per queued item,
    in queue order; on the completion poll the last call of the drain is the
    final one, or a single synthetic call with the empty result is made when
    nothing was queued. */
module PartialResults {

  datatype Call<Req, Res> = Call(request: Req, value: Res, isFinal: bool)

  /** The calls of a drain made while the worker is still running. */
  function Partials<Req, Res>(req: Req, items: seq<Res>): (calls: seq<Call<Req, Res>>)
    ensures |calls| == |items|
  {
    if |items| == 0 then [] else [Call(req, items[0], false)] + Partials(req, items[1..])
  }

  /** The calls of one drain of `items`; `complete` tells whether the worker
      had finished when the poll began. */
  function Notify<Req, Res>(req: Req, items: seq<Res>, complete: bool, empty: Res): (calls: seq<Call<Req, Res>>)
    ensures |calls| == (if complete && |items| == 0 then 1 else |items|)
    ensures complete ==>
      calls[|calls| - 1] == Call(req, if |items| == 0 then empty else items[|items| - 1], true)
  {
    if !complete then Partials(req, items)
    else if |items| == 0 then [Call(req, empty, true)]
    else Partials(req, items[..|items| - 1]) + [Call(req, items[|items| - 1], true)]
  }

  /** How many calls of a log carry isFinal = true. */
  function CountFinal<Req, Res>(log: seq<Call<Req, Res>>): nat
  {
    if |log| == 0 then 0 else (if log[0].isFinal then 1 else 0) + CountFinal(log[1..])
  }

  lemma {:induction false} PartialsAt<Req, Res>(req: Req, items: seq<Res>)
    ensures |Partials(req, items)| == |items|
    ensures forall i :: 0 <= i < |items| ==> Partials(req, items)[i] == Call(req, items[i], false)
  {
    if |items| > 0 {
      PartialsAt(req, items[1..]);
    }
  }

  lemma {:induction false} PartialsAppend<Req, Res>(req: Req, a: seq<Res>, b: seq<Res>)
    ensures Partials(req, a + b) == Partials(req, a) + Partials(req, b)
  {
    if |a| > 0 {
      assert (a + b)[1..] == a[1..] + b;
      PartialsAppend(req, a[1..], b);
    } else {
      assert a + b == b;
    }
  }

  lemma {:induction false} CountFinalAppend<Req, Res>(x: seq<Call<Req, Res>>, y: seq<Call<Req, Res>>)
    ensures CountFinal(x + y) == CountFinal(x) + CountFinal(y)
  {
    if |x| > 0 {
      assert (x + y)[1..] == x[1..] + y;
      CountFinalAppend(x[1..], y);
    } else {
      assert x + y == y;
    }
  }

  /** One step of a drain of `q`: after the calls for the first k items,
      the call for item k gives the calls for the first k + 1 items, or the
      whole completion drain when item k is the last one and the worker has
      completed. */
  lemma DrainStep<Req, Res>(req: Req, q: seq<Res>, k: nat, complete: bool, empty: Res)
    requires k < |q|
    ensures var last := complete && k + 1 == |q|;
      Partials(req, q[..k]) + [Call(req, q[k], last)] ==
      (if last then Notify(req, q, true, empty) else Partials(req, q[..k + 1]))
  {
    if !(complete && k + 1 == |q|) {
      PartialsAppend(req, q[..k], [q[k]]);
      assert q[..k] + [q[k]] == q[..k + 1];
    }
  }

  /** No drain made while the worker runs carries isFinal = true. */
  lemma {:induction false} PartialsNotFinal<Req, Res>(req: Req, items: seq<Res>)
    ensures CountFinal(Partials(req, items)) == 0
  {
    if |items| > 0 {
      PartialsNotFinal(req, items[1..]);
    }
  }

  /** Two drains made while the worker runs are the drain of both batches in order. */
  lemma NotifyRunningCompose<Req, Res>(req: Req, a: seq<Res>, b: seq<Res>, empty: Res)
    ensures Partials(req, a) + Notify(req, b, false, empty) == Partials(req, a + b)
  {
    PartialsAppend(req, a, b);
  }

  /** The calls of one drain: each queued item once, in queue order, with
      isFinal on the last one only when the worker has completed; a completed
      drain of an empty queue is the one synthetic call with the empty result. */
  lemma NotifyShape<Req, Res>(req: Req, items: seq<Res>, complete: bool, empty: Res)
    ensures (!complete || |items| > 0) ==>
      |Notify(req, items, complete, empty)| == |items| &&
      forall i :: 0 <= i < |items| ==>
        Notify(req, items, complete, empty)[i] == Call(req, items[i], complete && i == |items| - 1)
    ensures complete && |items| == 0 ==> Notify(req, items, complete, empty) == [Call(req, empty, true)]
  {
    if complete && |items| > 0 {
      PartialsAt(req, items[..|items| - 1]);
    } else {
      PartialsAt(req, items);
    }
  }

  /** One drain carries isFinal exactly once if the worker has completed, and
      never otherwise; when it does, the final call is the drain's last. */
  lemma NotifyFinalCount<Req, Res>(req: Req, items: seq<Res>, complete: bool, empty: Res)
    ensures CountFinal(Notify(req, items, complete, empty)) == if complete then 1 else 0
    ensures complete ==> |Notify(req, items, complete, empty)| > 0 && Notify(req, items, complete, empty)[|Notify(req, items, complete, empty)| - 1].isFinal
  {
    if !complete {
      PartialsNotFinal(req, items);
    } else if |items| > 0 {
      var pre := items[..|items| - 1];
      var last := [Call(req, items[|items| - 1], true)];
      PartialsNotFinal(req, pre);
      CountFinalAppend(Partials(req, pre), last);
      assert CountFinal(last) == 1 by {
        assert last[1..] == [];
      }
    } else {
      var c: seq<Call<Req, Res>> := [Call(req, empty, true)];
      assert c[1..] == [];
    }
  }

  /** The calls of a whole operation: drains while the worker ran delivered
      `delivered`, the completion drain delivered `finalDrain`. The log holds
      exactly one isFinal call, it is the last one, and every call carries
      the request. */
  lemma WholeOperationFinal<Req, Res>(req: Req, delivered: seq<Res>, finalDrain: seq<Res>, empty: Res)
    ensures var log := Partials(req, delivered) + Notify(req, finalDrain, true, empty);
      CountFinal(log) == 1 &&
      |log| > 0 && log[|log| - 1].isFinal &&
      (forall i :: 0 <= i < |log| - 1 ==> !log[i].isFinal) &&
      (forall i :: 0 <= i < |log| ==> log[i].request == req)
  {
    PartialsNotFinal(req, delivered);
    NotifyFinalCount(req, finalDrain, true, empty);
    CountFinalAppend(Partials(req, delivered), Notify(req, finalDrain, true, empty));
    PartialsAt(req, delivered);
    NotifyShape(req, finalDrain, true, empty);
  }

  /** The values a whole operation delivers: every enqueued item once, in
      enqueue order, followed by the synthetic empty call only when the
      completion drain found nothing. */
  lemma WholeOperationValues<Req, Res>(req: Req, delivered: seq<Res>, finalDrain: seq<Res>, empty: Res)
    ensures var log := Partials(req, delivered) + Notify(req, finalDrain, true, empty);
      (|finalDrain| > 0 ==>
         (|log| == |delivered + finalDrain| &&
          forall i :: 0 <= i < |log| ==> log[i].value == (delivered + finalDrain)[i])) &&
      (|finalDrain| == 0 ==> log == Partials(req, delivered) + [Call(req, empty, true)])
  {
    PartialsAt(req, delivered);
    NotifyShape(req, finalDrain, true, empty);
  }
}

/** Settled states of a promise, and `Promise.all` over a fixed list of them, with the
    timing of settlement abstracted away. */
module Promises {

  /** A promise that never settles, fulfils with a value, or rejects with a reason. */
  datatype Settle<+T> = Pending | Fulfilled(value: T) | Rejected(reason: string)

  /** `Promise.all(ps)`: it fulfils with every value, in list order, once all fulfil; it
      rejects as soon as any one rejects, even while others are still pending; otherwise
      it stays pending. When several reject, the reason of the one that rejects first in
      time is kept; the model takes the first in list order. */
  function All<T>(ps: seq<Settle<T>>): (r: Settle<seq<T>>)
    ensures r.Fulfilled? <==> forall i | 0 <= i < |ps| :: ps[i].Fulfilled?
    ensures r.Fulfilled? ==> |r.value| == |ps| && forall i | 0 <= i < |ps| :: r.value[i] == ps[i].value
    ensures r.Rejected? <==> exists i | 0 <= i < |ps| :: ps[i].Rejected?
    ensures r.Rejected? ==> exists i | 0 <= i < |ps| :: ps[i] == Rejected(r.reason)
    ensures r.Pending? <==>
      (forall i | 0 <= i < |ps| :: !ps[i].Rejected?) && (exists i | 0 <= i < |ps| :: ps[i].Pending?)
    decreases |ps|
  {
    if |ps| == 0 then Fulfilled([])
    else
      var rest := All(ps[1..]);
      assert forall i | 1 <= i < |ps| :: ps[i] == ps[1..][i - 1];
      match ps[0]
      case Rejected(e) => Rejected(e)
      case Pending => if rest.Rejected? then rest else Pending
      case Fulfilled(v) =>
        if rest.Fulfilled? then Fulfilled([v] + rest.value) else rest
  }
}

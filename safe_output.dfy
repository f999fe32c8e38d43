/** Where the deferred writes of a latent action land.

    Output references handed to a latent action either point into the
    persistent frame of the calling graph, which outlives the action, or at
    a transient stack slot created because the output pin was not wired.
    Addresses are integers; 0 is the null pointer. */
module SafeOutput {
  import opened GameKitTypes

  /** Largest plausible persistent frame (256 MB). */
  const EXTREMELY_LARGE_FRAME_SIZE: int := 0x10000000

  /** The persistent frame of the calling function: its base address and its size. */
  datatype Frame = Frame(base: int, size: int)

  /** The hosting assumption checked before any output is resolved: a non-null
      frame of positive size below the sanity limit. Breaking it is fatal. */
  predicate FramePlausible(f: Frame)
  {
    f.base != 0 && 0 < f.size < EXTREMELY_LARGE_FRAME_SIZE
  }

  /** The half-open range [base, base + size). */
  predicate InFrame(f: Frame, addr: int)
  {
    f.base <= addr < f.base + f.size
  }

  /** A resolved output reference: the caller's own destination, or the
      static discard variable of the output's type. */
  datatype OutputRef = Caller(addr: int) | Discard

  /** Resolve an output address against the persistent frame. */
  function SafeOutputRef(f: Frame, addr: int): (r: OutputRef)
    requires FramePlausible(f)
    ensures r == Caller(addr) <==> InFrame(f, addr)
    ensures r != Caller(addr) ==> r == Discard
  {
    if f.base <= addr && addr < f.base + f.size then Caller(addr) else Discard
  }

  /** The value kinds an action writes back. */
  datatype Value<Res> = PinValue(pin: ExecPin) | StatusValue(status: OperationResult) | ResultsValue(results: Res)

  /** Host memory as the action sees it: caller destinations by address, and
      one static discard variable per output type. */
  datatype Store<Res> = Store(cells: map<int, Value<Res>>, junkPin: ExecPin, junkStatus: OperationResult, junkResults: Res)

  /** Assign through a resolved reference. A write through the caller's
      reference reaches exactly that destination and no discard variable; a
      write through the discard sink changes no caller destination and lands
      in the discard variable of the value's type. */
  function Write<Res>(s: Store<Res>, r: OutputRef, v: Value<Res>): (w: Store<Res>)
    ensures r.Caller? ==> w.cells == s.cells[r.addr := v]
    ensures r.Caller? ==> w.junkPin == s.junkPin && w.junkStatus == s.junkStatus && w.junkResults == s.junkResults
    ensures r.Discard? ==> w.cells == s.cells
    ensures r.Discard? && v.PinValue? ==> w.junkPin == v.pin && w.junkStatus == s.junkStatus && w.junkResults == s.junkResults
    ensures r.Discard? && v.StatusValue? ==> w.junkStatus == v.status && w.junkPin == s.junkPin && w.junkResults == s.junkResults
    ensures r.Discard? && v.ResultsValue? ==> w.junkResults == v.results && w.junkPin == s.junkPin && w.junkStatus == s.junkStatus
  {
    match r
    case Caller(a) => s.(cells := s.cells[a := v])
    case Discard =>
      match v
      case PinValue(p) => s.(junkPin := p)
      case StatusValue(e) => s.(junkStatus := e)
      case ResultsValue(x) => s.(junkResults := x)
  }

  /** A deferred write through any resolved reference leaves every address
      outside the persistent frame as it was: transient storage is never written. */
  lemma DeferredWriteStaysInFrame<Res>(f: Frame, addr: int, s: Store<Res>, v: Value<Res>, other: int)
    requires FramePlausible(f)
    requires !InFrame(f, other)
    ensures var s' := Write(s, SafeOutputRef(f, addr), v);
      (other in s'.cells <==> other in s.cells) &&
      (other in s.cells ==> s'.cells[other] == s.cells[other])
  {
  }

  /** The shared host memory, mutated in place by the actions writing into it. */
  class HostMemory<Res> {
    var store: Store<Res>

    constructor (initial: Store<Res>)
      ensures store == initial
    {
      store := initial;
    }

    /** Assign `v` through the resolved reference `r`. */
    method Assign(r: OutputRef, v: Value<Res>)
      modifies this
      ensures store == Write(old(store), r, v)
    {
      store := Write(store, r, v);
    }
  }
}

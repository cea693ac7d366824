/** The containers that hold one object per stage of the hybrid optimal
    control problem: regular stages in `data`, and one slot per possible
    discrete event in `aux`, `lift` (regular type) and `impulse` (impulse
    type). `hybrid_container` keeps the terminal stage as the last element
    of `data`; `OCP` keeps it in a separate `terminal` field. Element
    construction (default or from a robot) is the element value passed in. */
module HybridContainers {

  datatype HybridContainer<T, I> = HybridContainer(data: seq<T>, aux: seq<T>, lift: seq<T>, impulse: seq<I>)

  /** `hybrid_container(N, N_impulse)`: N + 1 regular slots, N_impulse of
      each event kind, every slot a copy of the given element. */
  function Create<T, I>(n: nat, nImpulse: nat, elem: T, impulseElem: I): (c: HybridContainer<T, I>)
    ensures |c.data| == n + 1
    ensures |c.aux| == nImpulse && |c.lift| == nImpulse && |c.impulse| == nImpulse
    ensures forall k :: 0 <= k < n + 1 ==> c.data[k] == elem
    ensures forall k :: 0 <= k < nImpulse ==> c.aux[k] == elem && c.lift[k] == elem && c.impulse[k] == impulseElem
  {
    HybridContainer(seq(n + 1, _ => elem), seq(nImpulse, _ => elem), seq(nImpulse, _ => elem),
                    seq(nImpulse, _ => impulseElem))
  }

  /** `hybrid_container(N)`: only the N + 1 regular slots. */
  function CreateRegular<T, I>(n: nat, elem: T): (c: HybridContainer<T, I>)
    ensures |c.data| == n + 1
    ensures forall k :: 0 <= k < n + 1 ==> c.data[k] == elem
    ensures c.aux == [] && c.lift == [] && c.impulse == []
  {
    HybridContainer(seq(n + 1, _ => elem), [], [], [])
  }

  function Default<T, I>(): (c: HybridContainer<T, I>)
    ensures |c.data| == 0 && |c.aux| == 0 && |c.lift| == 0 && |c.impulse| == 0
  {
    HybridContainer([], [], [], [])
  }

  /** `operator[]` as a read. */
  function At<T, I>(c: HybridContainer<T, I>, i: int): T
    requires 0 <= i < |c.data|
  {
    c.data[i]
  }

  /** `operator[]` as a write through the returned reference. */
  function Put<T, I>(c: HybridContainer<T, I>, i: int, x: T): (r: HybridContainer<T, I>)
    requires 0 <= i < |c.data|
    ensures |r.data| == |c.data| && At(r, i) == x
    ensures forall k :: 0 <= k < |c.data| && k != i ==> At(r, k) == At(c, k)
    ensures r.aux == c.aux && r.lift == c.lift && r.impulse == c.impulse
  {
    c.(data := c.data[i := x])
  }

  /** The whole optimal control problem: N regular stages, the event
      stages, and one terminal stage. */
  datatype OCP<S, I, F> = OCP(data: seq<S>, aux: seq<S>, lift: seq<S>, impulse: seq<I>, terminal: F)

  /** `OCP(N, N_impulse)`: N regular stages (the terminal stage is separate). */
  function CreateOCP<S, I, F>(n: nat, nImpulse: nat, stage: S, impulseStage: I, terminal: F): (o: OCP<S, I, F>)
    ensures |o.data| == n
    ensures |o.aux| == nImpulse && |o.lift| == nImpulse && |o.impulse| == nImpulse
    ensures forall k :: 0 <= k < n ==> o.data[k] == stage
    ensures forall k :: 0 <= k < nImpulse ==> o.aux[k] == stage && o.lift[k] == stage && o.impulse[k] == impulseStage
    ensures o.terminal == terminal
  {
    OCP(seq(n, _ => stage), seq(nImpulse, _ => stage), seq(nImpulse, _ => stage),
        seq(nImpulse, _ => impulseStage), terminal)
  }

  /** `OCP(N)`: only the regular stages and the terminal stage. */
  function CreateRegularOCP<S, I, F>(n: nat, stage: S, terminal: F): (o: OCP<S, I, F>)
    ensures |o.data| == n && o.aux == [] && o.lift == [] && o.impulse == []
    ensures forall k :: 0 <= k < n ==> o.data[k] == stage
    ensures o.terminal == terminal
  {
    OCP(seq(n, _ => stage), [], [], [], terminal)
  }

  function OCPAt<S, I, F>(o: OCP<S, I, F>, i: int): S
    requires 0 <= i < |o.data|
  {
    o.data[i]
  }

  function OCPPut<S, I, F>(o: OCP<S, I, F>, i: int, x: S): (r: OCP<S, I, F>)
    requires 0 <= i < |o.data|
    ensures |r.data| == |o.data| && OCPAt(r, i) == x
    ensures forall k :: 0 <= k < |o.data| && k != i ==> OCPAt(r, k) == OCPAt(o, k)
    ensures r.aux == o.aux && r.lift == o.lift && r.impulse == o.impulse && r.terminal == o.terminal
  {
    o.(data := o.data[i := x])
  }

  /** An OCP and a per-stage container built for the same horizon have the
      same number of stage slots once the OCP's terminal stage is counted,
      and the same number of event slots. */
  lemma OCPMatchesContainer<S, I, F, T, J>(n: nat, nImpulse: nat, s: S, i: I, f: F, t: T, j: J)
    ensures var o := CreateOCP(n, nImpulse, s, i, f);
            var c := Create(n, nImpulse, t, j);
            |o.data| + 1 == |c.data| && |o.aux| == |c.aux| && |o.lift| == |c.lift| && |o.impulse| == |c.impulse|
    ensures |CreateRegularOCP<S, I, F>(n, s, f).data| + 1 == |CreateRegular<T, J>(n, t).data|
  {
  }
}

/**
  The pointer-pick dispatch policy of the immersive viewer.

  On every pointer-down the viewer looks at two engine answers: the picking
  information of the event (which may be absent, and which may or may not name
  a picked mesh) and a separate sprite search at the pointer position (which
  may be absent, has a `hit` flag, and may or may not name a picked sprite).
  Up to three optional callbacks were registered. The effect of one event is
  the ordered list of callbacks invoked and diagnostics logged.
  */
module Picking {

  datatype Option<+T> = None | Some(value: T)

  /** A picked mesh or sprite: an engine object with its own identity and a
      display name. Names need not be unique, so the two are kept apart. */
  datatype Mesh = Mesh(id: nat, name: string)
  datatype Sprite = Sprite(id: nat, name: string)

  /** The picking information the engine passes to the pointer-down handler. */
  datatype PickInfo = PickInfo(pickedMesh: Option<Mesh>)

  /** The result of the engine's sprite search at the pointer position. */
  datatype SpriteSearch = SpriteSearch(hit: bool, pickedSprite: Option<Sprite>)

  /** Which of the three optional callbacks the caller supplied. */
  datatype Callbacks = Callbacks(hasMesh: bool, hasSprite: bool, hasOutside: bool)

  /** One observable effect of the handler: a callback invoked with the picked
      object, or a diagnostic logged with the object's name. */
  datatype Action =
    | MeshCb(mesh: Mesh)
    | LogMesh(meshName: string)
    | SpriteCb(sprite: Sprite)
    | LogSprite(spriteName: string)
    | OutsideCb

  datatype Kind = MeshKind | SpriteKind | OutsideKind

  function KindOf(a: Action): Kind {
    match a
    case MeshCb(_) => MeshKind
    case LogMesh(_) => MeshKind
    case SpriteCb(_) => SpriteKind
    case LogSprite(_) => SpriteKind
    case OutsideCb => OutsideKind
  }

  /** The position of a kind of action in the handler's fixed order of steps. */
  function Rank(k: Kind): nat {
    match k
    case MeshKind => 0
    case SpriteKind => 1
    case OutsideKind => 2
  }

  // ---------------------------------------------------------------------------
  // The three conditions the handler tests
  // ---------------------------------------------------------------------------

  /** The picking information exists and names a mesh. */
  predicate MeshPicked(pick: Option<PickInfo>) {
    pick.Some? && pick.value.pickedMesh.Some?
  }

  /** The sprite search exists and has its `hit` flag set. */
  predicate SearchHit(search: Option<SpriteSearch>) {
    search.Some? && search.value.hit
  }

  /** The sprite search exists, is a hit, and names a sprite. */
  predicate SpriteFound(search: Option<SpriteSearch>)
    ensures SpriteFound(search) ==> SearchHit(search)
  {
    SearchHit(search) && search.value.pickedSprite.Some?
  }

  /** The guard of the outside step: the search missed, or a mesh was picked. */
  predicate OutsideCondition(pick: Option<PickInfo>, search: Option<SpriteSearch>)
    ensures MeshPicked(pick) ==> OutsideCondition(pick, search)
    ensures !SpriteFound(search) && !MeshPicked(pick) ==>
      (OutsideCondition(pick, search) <==> !SearchHit(search))
  {
    !SearchHit(search) || MeshPicked(pick)
  }

  // ---------------------------------------------------------------------------
  // The handler as a function of its inputs
  // ---------------------------------------------------------------------------

  /** Mesh step: the mesh callback, or a log line when no mesh callback was given. */
  function MeshStep(pick: Option<PickInfo>, cbs: Callbacks): (r: seq<Action>)
    ensures |r| <= 1
    ensures r != [] <==> MeshPicked(pick)
    ensures forall a :: a in r ==> KindOf(a) == MeshKind
  {
    if MeshPicked(pick) then
      var m := pick.value.pickedMesh.value;
      [if cbs.hasMesh then MeshCb(m) else LogMesh(m.name)]
    else []
  }

  /** Sprite step: the sprite callback, or a log line when no sprite callback was given. */
  function SpriteStep(search: Option<SpriteSearch>, cbs: Callbacks): (r: seq<Action>)
    ensures |r| <= 1
    ensures r != [] <==> SpriteFound(search)
    ensures forall a :: a in r ==> KindOf(a) == SpriteKind
  {
    if SpriteFound(search) then
      var s := search.value.pickedSprite.value;
      [if cbs.hasSprite then SpriteCb(s) else LogSprite(s.name)]
    else []
  }

  /** Outside step: the outside callback if one was given; no log otherwise. */
  function OutsideStep(pick: Option<PickInfo>, search: Option<SpriteSearch>, cbs: Callbacks): (r: seq<Action>)
    ensures r == [] || r == [OutsideCb]
    ensures r != [] <==> cbs.hasOutside && OutsideCondition(pick, search)
  {
    if OutsideCondition(pick, search) && cbs.hasOutside then [OutsideCb] else []
  }

  /** The effects of one pointer-down, in the order the handler performs them. */
  function Dispatch(pick: Option<PickInfo>, search: Option<SpriteSearch>, cbs: Callbacks): (t: seq<Action>)
    ensures |t| <= 3
  {
    MeshStep(pick, cbs) + SpriteStep(search, cbs) + OutsideStep(pick, search, cbs)
  }

  // ---------------------------------------------------------------------------
  // Reference views of a trace
  // ---------------------------------------------------------------------------

  /** The actions of kind `k` in `t`, in their order in `t`. */
  function OfKind(t: seq<Action>, k: Kind): (r: seq<Action>)
    decreases |t|
  {
    if t == [] then []
    else (if KindOf(t[0]) == k then [t[0]] else []) + OfKind(t[1..], k)
  }

  /** Every action of `t` has a strictly greater rank than the ones before it. */
  predicate StrictlyRanked(t: seq<Action>) {
    forall i, j :: 0 <= i < j < |t| ==> Rank(KindOf(t[i])) < Rank(KindOf(t[j]))
  }

  lemma {:induction false} OfKindAppend(a: seq<Action>, b: seq<Action>, k: Kind)
    ensures OfKind(a + b, k) == OfKind(a, k) + OfKind(b, k)
    decreases |a|
  {
    if a == [] {
      assert a + b == b;
    } else {
      var head := if KindOf(a[0]) == k then [a[0]] else [];
      assert (a + b)[0] == a[0];
      assert (a + b)[1..] == a[1..] + b;
      assert OfKind(a + b, k) == head + OfKind(a[1..] + b, k);
      OfKindAppend(a[1..], b, k);
      assert OfKind(a, k) == head + OfKind(a[1..], k);
    }
  }

  lemma OfKindSingleton(x: Action, k: Kind)
    ensures OfKind([x], k) == if KindOf(x) == k then [x] else []
  {
    assert [x][1..] == [];
  }

  /** The filter of a one-kind step: the step itself for its own kind, nothing for the others. */
  lemma OfKindSteps(pick: Option<PickInfo>, search: Option<SpriteSearch>, cbs: Callbacks, k: Kind)
    ensures OfKind(MeshStep(pick, cbs), k) == if k == MeshKind then MeshStep(pick, cbs) else []
    ensures OfKind(SpriteStep(search, cbs), k) == if k == SpriteKind then SpriteStep(search, cbs) else []
    ensures OfKind(OutsideStep(pick, search, cbs), k) == if k == OutsideKind then OutsideStep(pick, search, cbs) else []
  {
    if MeshPicked(pick) {
      OfKindSingleton(MeshStep(pick, cbs)[0], k);
    }
    if SpriteFound(search) {
      OfKindSingleton(SpriteStep(search, cbs)[0], k);
    }
    if OutsideCondition(pick, search) && cbs.hasOutside {
      OfKindSingleton(OutsideCb, k);
    }
  }

  lemma OfKindDispatch(pick: Option<PickInfo>, search: Option<SpriteSearch>, cbs: Callbacks, k: Kind)
    ensures OfKind(Dispatch(pick, search, cbs), k) ==
      OfKind(MeshStep(pick, cbs), k) + OfKind(SpriteStep(search, cbs), k) + OfKind(OutsideStep(pick, search, cbs), k)
  {
    var a, b, c := MeshStep(pick, cbs), SpriteStep(search, cbs), OutsideStep(pick, search, cbs);
    OfKindAppend(a + b, c, k);
    OfKindAppend(a, b, k);
  }

  // ---------------------------------------------------------------------------
  // Properties of the policy
  // ---------------------------------------------------------------------------

  /** A mesh action happens exactly when a mesh was picked; it is the callback
      when one was given and a log otherwise, and it carries the picked mesh. */
  lemma MeshAction(pick: Option<PickInfo>, search: Option<SpriteSearch>, cbs: Callbacks)
    ensures OfKind(Dispatch(pick, search, cbs), MeshKind) ==
      if MeshPicked(pick) then
        [if cbs.hasMesh then MeshCb(pick.value.pickedMesh.value) else LogMesh(pick.value.pickedMesh.value.name)]
      else []
  {
    OfKindDispatch(pick, search, cbs, MeshKind);
    OfKindSteps(pick, search, cbs, MeshKind);
  }

  /** A sprite action happens exactly when the search is a hit that names a
      sprite; it is the callback when one was given and a log otherwise. */
  lemma SpriteAction(pick: Option<PickInfo>, search: Option<SpriteSearch>, cbs: Callbacks)
    ensures OfKind(Dispatch(pick, search, cbs), SpriteKind) ==
      if SpriteFound(search) then
        [if cbs.hasSprite then SpriteCb(search.value.pickedSprite.value) else LogSprite(search.value.pickedSprite.value.name)]
      else []
  {
    OfKindDispatch(pick, search, cbs, SpriteKind);
    OfKindSteps(pick, search, cbs, SpriteKind);
  }

  /** The outside callback fires exactly when it was given and the search missed
      or a mesh was picked; without it nothing of that kind happens. */
  lemma OutsideAction(pick: Option<PickInfo>, search: Option<SpriteSearch>, cbs: Callbacks)
    ensures OfKind(Dispatch(pick, search, cbs), OutsideKind) ==
      if cbs.hasOutside && (!SearchHit(search) || MeshPicked(pick)) then [OutsideCb] else []
  {
    OfKindDispatch(pick, search, cbs, OutsideKind);
    OfKindSteps(pick, search, cbs, OutsideKind);
  }

  /** Actions come in the order mesh, sprite, outside, and no kind repeats. */
  lemma DispatchOrdered(pick: Option<PickInfo>, search: Option<SpriteSearch>, cbs: Callbacks)
    ensures StrictlyRanked(Dispatch(pick, search, cbs))
    ensures |Dispatch(pick, search, cbs)| <= 3
  {
  }

  /** The trace is the mesh actions, then the sprite actions, then the outside actions. */
  lemma DispatchByKind(pick: Option<PickInfo>, search: Option<SpriteSearch>, cbs: Callbacks)
    ensures var t := Dispatch(pick, search, cbs);
      t == OfKind(t, MeshKind) + OfKind(t, SpriteKind) + OfKind(t, OutsideKind)
  {
    MeshAction(pick, search, cbs);
    SpriteAction(pick, search, cbs);
    OutsideAction(pick, search, cbs);
  }

  /** No effect at all exactly when nothing was picked and the outside step is
      either unregistered or suppressed by a search hit. */
  lemma DispatchEmptyIff(pick: Option<PickInfo>, search: Option<SpriteSearch>, cbs: Callbacks)
    ensures Dispatch(pick, search, cbs) == [] <==>
      !MeshPicked(pick) && !SpriteFound(search) && (!cbs.hasOutside || SearchHit(search))
  {
  }

  /** The outside callback fires beside the mesh callback, although the outside
      callback is documented as the one for "nothing picked". */
  lemma OutsideFiresWithMesh(m: Mesh, search: Option<SpriteSearch>, cbs: Callbacks)
    requires cbs.hasOutside
    ensures OutsideCb in Dispatch(Some(PickInfo(Some(m))), search, cbs)
  {
  }

  // ---------------------------------------------------------------------------
  // Scenarios
  // ---------------------------------------------------------------------------

  /** Mesh hit, no sprite found (the search missed, or hit without naming a
      sprite), all callbacks given: the mesh callback, then the outside one. */
  lemma MeshHitSpriteMissAllCallbacks(m: Mesh, search: Option<SpriteSearch>)
    requires !SpriteFound(search)
    ensures Dispatch(Some(PickInfo(Some(m))), search, Callbacks(true, true, true)) == [MeshCb(m), OutsideCb]
  {
  }

  /** Mesh hit, no sprite found, no callbacks given: only the mesh log. */
  lemma MeshHitSpriteMissNoCallbacks(m: Mesh, search: Option<SpriteSearch>)
    requires !SpriteFound(search)
    ensures Dispatch(Some(PickInfo(Some(m))), search, Callbacks(false, false, false)) == [LogMesh(m.name)]
  {
  }

  /** No mesh and a sprite hit: only the sprite action; the outside callback never fires. */
  lemma SpriteHitWithoutMesh(pick: Option<PickInfo>, s: Sprite, cbs: Callbacks)
    requires !MeshPicked(pick)
    ensures Dispatch(pick, Some(SpriteSearch(true, Some(s))), cbs) ==
      [if cbs.hasSprite then SpriteCb(s) else LogSprite(s.name)]
  {
  }

  /** Neither a mesh nor a sprite hit: the outside callback alone, or nothing. */
  lemma NothingPicked(pick: Option<PickInfo>, search: Option<SpriteSearch>, cbs: Callbacks)
    requires !MeshPicked(pick) && !SearchHit(search)
    ensures Dispatch(pick, search, cbs) == if cbs.hasOutside then [OutsideCb] else []
  {
  }

  /** A search that is a hit but names no sprite, with no mesh, has no effect at all. */
  lemma HitWithoutSpriteIsSilent(pick: Option<PickInfo>, cbs: Callbacks)
    requires !MeshPicked(pick)
    ensures Dispatch(pick, Some(SpriteSearch(true, None)), cbs) == []
  {
  }
}

/**
  The stateful side of picking: the scene holds one pointer-down handler in a
  field, and registering immersive picking overwrites that field with a handler
  that captures the three optional callbacks. The scene records, in order,
  every callback invocation and diagnostic log its handlers perform.
  */
module Controller {
  import opened Picking

  /** The handler stored in the scene's pointer-down slot: the closure that
      immersive-picking registration builds, identified by the callbacks it
      captured. */
  datatype Handler = Immersive(callbacks: Callbacks)

  class Scene {
    /** The scene's pointer-down slot; `None` until something is registered. */
    var onPointerDown: Option<Handler>
    /** Every effect the handlers have performed so far, oldest first. */
    var effects: seq<Action>

    constructor ()
      ensures onPointerDown == None && effects == []
    {
      onPointerDown := None;
      effects := [];
    }

    /** One pointer-down delivered by the engine with its picking information;
        `search` is what the engine's sprite search at the pointer answers.
        Without a registered handler nothing happens. */
    method PointerDown(pick: Option<PickInfo>, search: Option<SpriteSearch>)
      modifies this`effects
      ensures onPointerDown.None? ==> effects == old(effects)
      ensures onPointerDown.Some? ==>
        effects == old(effects) + Dispatch(pick, search, onPointerDown.value.callbacks)
    {
      match onPointerDown
      case None =>
      case Some(h) => RunImmersive(h.callbacks, pick, search);
    }

    /** The body of the immersive handler: the mesh step, the sprite step and
        the outside step, each appending what it does to the effects. */
    method RunImmersive(cbs: Callbacks, pick: Option<PickInfo>, search: Option<SpriteSearch>)
      modifies this`effects
      ensures effects == old(effects) + Dispatch(pick, search, cbs)
    {
      // check for meshes
      if pick.Some? && pick.value.pickedMesh.Some? {
        var m := pick.value.pickedMesh.value;
        if cbs.hasMesh {
          effects := effects + [MeshCb(m)];
        } else {
          effects := effects + [LogMesh(m.name)];
        }
      }
      ghost var afterMesh := effects;
      // check for sprites
      if search.Some? && search.value.hit && search.value.pickedSprite.Some? {
        var s := search.value.pickedSprite.value;
        if cbs.hasSprite {
          effects := effects + [SpriteCb(s)];
        } else {
          effects := effects + [LogSprite(s.name)];
        }
      }
      ghost var afterSprite := effects;
      if !(search.Some? && search.value.hit) || (pick.Some? && pick.value.pickedMesh.Some?) {
        if cbs.hasOutside {
          effects := effects + [OutsideCb];
        }
      }
      assert afterMesh == old(effects) + MeshStep(pick, cbs);
      assert afterSprite == afterMesh + SpriteStep(search, cbs);
      assert effects == afterSprite + OutsideStep(pick, search, cbs);
    }
  }

  class BabylonController {
    const scene: Scene

    constructor ()
      ensures fresh(scene)
      ensures scene.onPointerDown == None && scene.effects == []
    {
      scene := new Scene();
    }

    /** Registers the immersive pointer-down handler with the given callbacks
        (`true` where the caller supplied one). The scene's slot is assigned,
        so a later registration replaces an earlier one. */
    method HandleImmersivePicking(meshCallback: bool, spriteCallback: bool, outsideCallback: bool)
      modifies scene`onPointerDown
      ensures scene.onPointerDown == Some(Immersive(Callbacks(meshCallback, spriteCallback, outsideCallback)))
    {
      scene.onPointerDown := Some(Immersive(Callbacks(meshCallback, spriteCallback, outsideCallback)));
    }
  }

  /** Two registrations followed by one pointer-down: only the second
      registration's callbacks take part. */
  method LaterRegistrationWins(first: Callbacks, second: Callbacks, pick: Option<PickInfo>, search: Option<SpriteSearch>)
    returns (t: seq<Action>)
    ensures t == Dispatch(pick, search, second)
  {
    var c := new BabylonController();
    c.HandleImmersivePicking(first.hasMesh, first.hasSprite, first.hasOutside);
    c.HandleImmersivePicking(second.hasMesh, second.hasSprite, second.hasOutside);
    c.scene.PointerDown(pick, search);
    t := c.scene.effects;
  }

  /** A pointer-down before any registration has no effect. */
  method BeforeRegistration(pick: Option<PickInfo>, search: Option<SpriteSearch>) returns (t: seq<Action>)
    ensures t == []
  {
    var c := new BabylonController();
    c.scene.PointerDown(pick, search);
    t := c.scene.effects;
  }

  /** Each pointer-down appends its own dispatch to what earlier events did. */
  method TwoEvents(cbs: Callbacks, pick1: Option<PickInfo>, search1: Option<SpriteSearch>,
                   pick2: Option<PickInfo>, search2: Option<SpriteSearch>)
    returns (t: seq<Action>)
    ensures t == Dispatch(pick1, search1, cbs) + Dispatch(pick2, search2, cbs)
  {
    var c := new BabylonController();
    c.HandleImmersivePicking(cbs.hasMesh, cbs.hasSprite, cbs.hasOutside);
    var scene := c.scene;
    scene.PointerDown(pick1, search1);
    ghost var first := scene.effects;
    assert first == Dispatch(pick1, search1, cbs);
    scene.PointerDown(pick2, search2);
    t := scene.effects;
  }
}

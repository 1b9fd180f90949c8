# Pointer-pick dispatch of the immersive viewer

The viewer puts a spherical panorama on screen and reacts to pointer input.
`BabylonController.handleImmersivePicking` registers a pointer-down handler on
the scene. The caller may supply three callbacks: one for picked meshes, one
for picked sprites and one "outside" callback. On each pointer-down the handler
runs three steps in a fixed order:

1. **Mesh step.** The engine passes picking information to the handler. If
   that information exists and names a picked mesh, the mesh callback runs
   with that mesh. With no mesh callback, the mesh's name is logged instead.
2. **Sprite step.** The handler always runs a separate sprite search at the
   pointer position. If the search exists, has `hit` set and names a sprite,
   the sprite callback runs with that sprite. With no sprite callback, the
   sprite's name is logged instead.
3. **Outside step.** The outside callback runs, if one was given, when the
   search is missing or not a hit, or when a mesh was picked. This step never
   logs anything.

Registration assigns the scene's single `onPointerDown` slot, so a later
registration replaces an earlier one.

The model has two modules:

- `Picking` (picking.dfy) holds the pure policy. The engine's two answers
  are plain inputs: `Option<PickInfo>` and `Option<SpriteSearch>`. The
  supplied callbacks are presence flags (`Callbacks`). One event's effect is
  an ordered trace of `Action`s: `MeshCb`, `LogMesh`, `SpriteCb`, `LogSprite`
  and `OutsideCb`. `Dispatch` computes that trace. `OfKind` is an independent
  filter that picks the actions of one kind out of a trace, and the lemmas
  state the policy through it.
- `Controller` (controller.dfy) holds the state. `Scene` has the
  `onPointerDown` slot and the list of effects performed so far.
  `BabylonController.HandleImmersivePicking` overwrites the slot.
  `Scene.RunImmersive` is the handler body written step by step. It is
  proved to append exactly `Dispatch` of its inputs.

A callback receives the picked object itself (`Mesh` or `Sprite`, an
identity plus a name). A log line prints only the object's name, so `LogMesh`
and `LogSprite` carry just that name.

The source's doc comment calls the outside callback the one "to fire on
nothing picked". As written, the code also fires it when a mesh was picked
(`OutsideFiresWithMesh`). And because the sprite step checks `pickedSprite`
while the outside step does not, a search that is a hit but names no sprite,
with no mesh picked, has no effect at all (`HitWithoutSpriteIsSilent`). The
model keeps both behaviours as written.

## Model

| member | source | states |
|---|---|---|
| `Picking.MeshPicked` | src/utils/BabylonController.ts:93 | No contract; the mesh step's guard: the picking information exists and names a mesh. |
| `Picking.SearchHit` | src/utils/BabylonController.ts:112 | No contract; the sprite search exists and has `hit` set, the test the outside step negates. |
| `Picking.SpriteFound` | src/utils/BabylonController.ts:105 | The sprite step's guard: the search exists, is a hit and names a sprite. Whenever it holds, the outside step's hit test holds too. |
| `Picking.OutsideCondition` | src/utils/BabylonController.ts:112 | The outside step's guard: the search missed or a mesh was picked. A picked mesh always satisfies it. With no mesh and no sprite found, it holds exactly when the search is not a hit. |
| `Picking.MeshStep` | src/utils/BabylonController.ts:93-99 | The mesh step of `Dispatch`: at most one action, always of mesh kind, and non-empty exactly when a mesh was picked. |
| `Picking.SpriteStep` | src/utils/BabylonController.ts:105-111 | The sprite step of `Dispatch`: at most one action, always of sprite kind, and non-empty exactly when a sprite was found. |
| `Picking.OutsideStep` | src/utils/BabylonController.ts:112-113 | The outside step of `Dispatch`: either nothing or exactly `[OutsideCb]`, and `[OutsideCb]` exactly when an outside callback was given and the outside guard holds. It never produces a log. |
| `Controller.Handler` | src/utils/BabylonController.ts:91 | No contract (a datatype); the closure assigned to the scene's pointer-down slot, identified by the callbacks it captured. |
| `Picking.Dispatch` | src/utils/BabylonController.ts:93-114 | One event produces at most three actions. |
| `Picking.MeshAction` | src/utils/BabylonController.ts:93-99 | There is a mesh action iff the picking information exists and names a mesh. There is exactly one such action: `MeshCb(m)` when a mesh callback was given, `LogMesh(m.name)` otherwise, where `m` is the picked mesh. |
| `Picking.SpriteAction` | src/utils/BabylonController.ts:101-111 | There is a sprite action iff the search exists, is a hit and names a sprite. There is exactly one such action: `SpriteCb(s)` or `LogSprite(s.name)`, depending on whether a sprite callback was given, where `s` is that sprite. |
| `Picking.OutsideAction` | src/utils/BabylonController.ts:112-114 | `OutsideCb` appears, once, iff an outside callback was given and (the search is missing or not a hit, or a mesh was picked). Without the callback there is no action of this kind, and no log either. |
| `Picking.DispatchOrdered` | src/utils/BabylonController.ts:93-114 | Every action has a strictly higher rank than the ones before it, in the order mesh, sprite, outside. So each kind appears at most once and the trace has at most three entries. |
| `Picking.DispatchByKind` | src/utils/BabylonController.ts:93-114 | The trace is exactly its mesh actions, then its sprite actions, then its outside actions. |
| `Picking.DispatchEmptyIff` | src/utils/BabylonController.ts:93-114 | An event has no effect iff no mesh was picked, no sprite was found, and the outside step is either unregistered or suppressed by a search hit. |
| `Picking.OutsideFiresWithMesh` | src/utils/BabylonController.ts:112-113 | With an outside callback given, a picked mesh always makes `OutsideCb` fire, whatever the sprite search says. |
| `Picking.MeshHitSpriteMissAllCallbacks` | src/utils/BabylonController.ts:93-114 | Mesh `m` picked and no sprite found (the search missed, or it hit without naming a sprite), all callbacks given: the trace is exactly `[MeshCb(m), OutsideCb]`. |
| `Picking.MeshHitSpriteMissNoCallbacks` | src/utils/BabylonController.ts:93-114 | Mesh `m` picked and no sprite found, no callbacks given: the trace is exactly `[LogMesh(m.name)]`. |
| `Picking.SpriteHitWithoutMesh` | src/utils/BabylonController.ts:105-113 | No mesh and a sprite hit on `s`: the trace is only the sprite action for `s`. `OutsideCb` never fires, even when registered. |
| `Picking.NothingPicked` | src/utils/BabylonController.ts:93-114 | No mesh and a search that missed: the trace is `[OutsideCb]` if an outside callback was given, and empty otherwise. |
| `Picking.HitWithoutSpriteIsSilent` | src/utils/BabylonController.ts:105-112 | A search that is a hit but names no sprite, with no mesh picked, gives an empty trace whatever callbacks were given. |
| `Picking.OfKindAppend` | src/utils/BabylonController.ts:93-114 | Filtering by kind distributes over concatenation. The three steps append to one trace, and this lemma lets each step be read on its own. |
| `Controller.Scene.constructor` | src/utils/BabylonController.ts:38 | A new scene has an empty pointer-down slot and no effects. The empty slot is the engine's initial state for a scene created here; it is not set by the controller. |
| `Controller.Scene.PointerDown` | src/utils/BabylonController.ts:91-115 | A pointer-down appends `Dispatch` of its inputs and the registered callbacks to the effects. With no handler registered, the effects are unchanged. |
| `Controller.Scene.RunImmersive` | src/utils/BabylonController.ts:92-114 | The handler body, written step by step, appends exactly `Dispatch(pick, search, cbs)` to the effects. |
| `Controller.BabylonController.constructor` | src/utils/BabylonController.ts:33-38 | The controller owns a fresh scene with no handler and no effects. |
| `Controller.BabylonController.HandleImmersivePicking` | src/utils/BabylonController.ts:86-91 | The scene's slot then holds the immersive handler with exactly the given callbacks, whatever it held before. |
| `Controller.LaterRegistrationWins` | src/utils/BabylonController.ts:91 | After two registrations, a pointer-down dispatches with the second registration's callbacks only. |
| `Controller.BeforeRegistration` | src/utils/BabylonController.ts:91 | A pointer-down before any registration has no effect. |
| `Controller.TwoEvents` | src/utils/BabylonController.ts:91-115 | Two pointer-downs under one registration give the first event's trace followed by the second's. |

## Left out

- The constructor's engine, scene, camera, light, asset manager, GUI, debug layer and page lookup (src/utils/BabylonController.ts:33-78): this is engine and browser set-up with no logic to state. The model's constructor creates only the scene's pointer-down slot.
- `worldToScreenCoordinates`, `angleBetweenTwoVectors`, `generate3DPosition`, `radiansToDegrees` and `degreesToRadians`: these are floating-point maths through the engine's vector, matrix and quaternion types. Dafny's reals cannot model `acos`, `atan` or `exp`.
- The `settings` record and the `Position2D` and `Frame` types: configuration and plain data with no behaviour.
- The engine's picking: how the picking information, `scene.pickSprite` and the pointer position are computed. The model takes the engine's answers as inputs. As a result, a mesh callback that changes the scene before the sprite search runs is not modelled.
- Controller.Scene.RunImmersive and Controller.Scene.PointerDown assume every callback returns normally. In the program nothing catches an exception. A mesh callback that throws at line 95 skips the sprite search and both later steps. A sprite callback that throws at line 107 skips the outside step. The exception then reaches the engine. In that case the program performs only a prefix of `Dispatch`, which the model does not capture.
- Mesh and sprite identity: the model treats `Mesh.id` and `Sprite.id` as the object's identity. The engine does not require names to be unique. The log actions carry only the name, so two different objects with the same name give the same log action.
- What the callbacks themselves do: each one is recorded as a single action. The exact text of the log lines is reduced to `LogMesh` and `LogSprite` actions that carry the name.
- Engine events other than pointer-down, and the event object and pointer-event type the engine also passes to the handler: the handler ignores them.

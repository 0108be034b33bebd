# Avatar lip-sync, animation and breathing — a Dafny model

This project models the per-frame core of a talking 3D avatar (a React /
three.js component pair):

- **Lip-sync** (`src/components/Avatar.jsx`). A static viseme table maps cue
  symbols A–H and X to morph-target names. Each frame, while the audio plays,
  every table channel of the head's and the teeth's influence arrays is pulled
  toward 0. Then the channel of the first cue whose closed interval
  `[start, end]` holds the audio time is pulled toward 1 on the head and 0.8 on
  the teeth. While the audio is paused or ended, the arrays are left alone and
  the animation state returns to `Idle`.
- **Animation state** (`src/components/Avatar.jsx`). One current clip (`Idle`,
  `Angry`, `Greeting`). Changing it fades the old clip out (0.5 s) and resets,
  fades in (0.5 s) and plays the new one. Setting the same clip again issues
  nothing. The greeting trigger selects the `HelloGalax` script and the
  `Greeting` clip.
- **Particles** (`src/components/AvatarParticles.jsx`). Once, every body
  vertex with `y > 0.05` is copied three times with a jitter of at most 0.0015
  per axis, and the copies are appended to the body's position buffer. Then a
  baseline copy of each of the nine parts' buffers is taken. Each frame, for
  `i = 0, 10, 20, …`, the entries `i`, `i+1` and `i+2` get
  `baseline + 0.002 * sin(time + 0.01 * i)`.

Modules, one per component:

| file | module | what |
|---|---|---|
| wrappers.dfy | `Wrappers` | the `Option` type: a missing entry or a present one |
| visemes.dfy | `Visemes` | the symbol → channel table and its value list |
| lipsync.dfy | `LipSync` | cue search, lerp, the decay and attack passes as functions on sequences, and their properties |
| animation.dfy | `AnimationArbiter` | clips, mixer commands, transitions, the "one clip engaged" invariant |
| avatar.dfy | `AvatarModel` | class `Avatar`: the influence arrays updated in place, the current clip and script |
| densify.dfy | `Densify` | point duplication, as functions and as the nested loop |
| breathing.dfy | `Breathing` | the stride-10 breathing write, as a function and as the in-place loop |
| particles.dfy | `AvatarParticles` | class `Particles`: the nine parts, their baselines, the two mount effects and the frame |

Non-discrete ingredients are parameters:

- `1 - exp(-100 * delta)` is a lerp factor `f`. The range lemmas assume
  `0 <= f <= 1`, which holds for a non-negative `delta`, the seconds since
  the shared clock was last read.
- `Math.sin` is a function parameter `sin: real -> real`. The bound lemma
  assumes its values are in [-1, 1].
- `Math.random()` is a sequence of draws in [0, 1), one per pushed coordinate,
  in push order.
- The audio element is two booleans, `paused` and `ended`, and a time value.

The model follows the code where its behaviour is easy to misread:

- With audio paused or ended, the code does not decay the mouth channels toward
  0. It leaves them frozen and only sets the clip to `Idle`.
- The teeth are indexed with the head's morph-target dictionary. The teeth's
  own dictionary is used only by the mount effect that opens the lips.
- A symbol outside the table is not an error. `corresponding[symbol]` is then
  `undefined`, or, for a name every object inherits (`toString`,
  `constructor`, ...), a function or object. Neither is a morph-target name,
  so the dictionary lookup that follows is `undefined` and no indexed entry is
  attacked. The model writes both cases as `None`. The search still stops at
  that cue.
- The cue track is not validated: cues may overlap or be unordered, and the
  first containing cue in list order wins.
- `viseme_PP` is listed for both A and X, so it is decayed twice per frame.

## Model

| member | source | states |
|---|---|---|
| `Visemes.Corresponding` | src/components/Avatar.jsx:7-17 | the symbol → channel lookup; its contract: a channel is returned exactly for the nine keys, and it is always one of the table's values; any other symbol gives `None` |
| `Visemes.TableDomain` | src/components/Avatar.jsx:7-17 | the table is defined for exactly the nine symbols A–H and X; A and X both map to `viseme_PP` |
| `Visemes.ValuesFollowKeys` | src/components/Avatar.jsx:7-17 | the value list `Object.values(corresponding)` is the table read in key order, position by position |
| `Visemes.OnlyPPRepeats` | src/components/Avatar.jsx:8-16 | two positions of the value list hold the same channel only at A and X, the first and the last |
| `Visemes.ValueMultiplicities` | src/components/Avatar.jsx:8-16 | `viseme_PP` occurs twice in the value list, every other channel once |
| `LipSync.Contains` | src/components/Avatar.jsx:102 | the cue test `start <= t <= end`, inclusive at both ends (no contract of its own); `ActiveCue` and `SharedBoundary` state what it selects |
| `LipSync.ActiveCue` | src/components/Avatar.jsx:101-102 | the result is the first cue, in list order, with `start <= t <= end` (both ends inclusive); `None` exactly when no cue contains `t` |
| `LipSync.Target` | src/components/Avatar.jsx:103 | `corresponding[cue.value]` for the active cue, `None` when no cue is active or the symbol is outside the table (no contract of its own); `TargetIsTableValue` and `SharedBoundary` state its properties |
| `LipSync.SharedBoundary` | src/components/Avatar.jsx:101-117 | at `t = 0.3` between `[0, 0.3]` and `[0.3, 0.6]` the earlier cue wins; at `t = 0.45` in a B, D, X track D is active and targets `viseme_AA`; past the end no cue is active |
| `LipSync.TargetIsTableValue` | src/components/Avatar.jsx:103 | the channel a cue asks for is always one of the table's values |
| `LipSync.Lerp` | src/components/Avatar.jsx:89-93 | `THREE.MathUtils.lerp`; its contract: factor 0 keeps the current value, factor 1 reaches the target, and a value already at the target stays there; `LerpBetween` states the range |
| `LipSync.LerpBetween` | src/components/Avatar.jsx:88-93 | for `f` in [0, 1] the lerp stays between its two ends; `f = 0` keeps the old value and `f = 1` reaches the target |
| `LipSync.Resolve` | src/components/Avatar.jsx:104 | the dictionary lookup `morphTargetDictionary[name]` (the same lookup as line 87), `None` for a missing channel or a name outside the dictionary (no contract of its own); `HitsOfOnlyName`, `NoHitsOutsideTable` and `AttackAfterDecay` state what it selects |
| `LipSync.Pull` | src/components/Avatar.jsx:89-98 | one `influences[index] = lerp(influences[index], target, f)` assignment, the same form as lines 106-115; an unresolved index leaves the array as it is; its contract keeps the length; `DecayAllAt`, `AttackAfterDecay` and `AvatarModel.Avatar.Attack` state its effect |
| `LipSync.DecayAll` | src/components/Avatar.jsx:86-99 | the decay `forEach` as a function: each name, in list order, pulls the entry its dictionary index names toward 0, and a name missing from the dictionary changes nothing; its contract keeps the length; `DecayAllAt`, `DecayAllInUnit` and `DecayAllZeroFactor` state its value, range and identity |
| `LipSync.DecayAllAt` | src/components/Avatar.jsx:86-99 | after the decay pass, entry `k` equals its old value times `(1 - f)` raised to the number of table names that resolve to `k` |
| `LipSync.DecayLastAt` | src/components/Avatar.jsx:86-99 | one more name of the `forEach`: if entry `k` carries one factor `1 - f` per earlier name that resolves to `k`, it still does after the new name |
| `LipSync.HitsOfOnlyName` | src/components/Avatar.jsx:86-87 | when only one name resolves to an index, that index is decayed once per occurrence of the name |
| `LipSync.PPDecayedTwice` | src/components/Avatar.jsx:86-99 | `viseme_PP` is decayed twice per playing frame: by `(1 - f)^2` |
| `LipSync.NoHitsOutsideTable` | src/components/Avatar.jsx:86-87 | an index no table name resolves to is never decayed |
| `LipSync.LipSyncPass` | src/components/Avatar.jsx:86-117 | one playing frame on one array: the decay pass, then the active cue's channel pulled toward the peak; its contract keeps the length; `AttackAfterDecay`, `UntouchedOutsideTable`, `LipSyncInUnit` and `LipSyncZeroFactor` state its properties |
| `LipSync.AttackAfterDecay` | src/components/Avatar.jsx:101-117 | after the decay, only the active cue's channel is pulled toward the peak (1 on the head, 0.8 on the teeth); with no active cue or an unknown symbol the frame is the decay pass alone |
| `LipSync.UntouchedOutsideTable` | src/components/Avatar.jsx:86-118 | array entries whose index is not resolved from a table value are never modified |
| `LipSync.DecayAllInUnit` | src/components/Avatar.jsx:86-99 | the decay pass keeps influences in [0, 1] |
| `LipSync.LipSyncInUnit` | src/components/Avatar.jsx:86-117 | influences that start in [0, 1] stay in [0, 1] after a playing frame, for the head (peak 1) and the teeth (peak 0.8) |
| `LipSync.DecayAllZeroFactor` | src/components/Avatar.jsx:86-99 | with `f = 0` the decay pass changes nothing |
| `LipSync.LipSyncZeroFactor` | src/components/Avatar.jsx:88-115 | with `f = 0` a whole playing frame changes nothing |
| `AnimationArbiter.MountEngagesIdle` | src/components/Avatar.jsx:40-50 | the initial state is `Idle`, and mounting leaves exactly `Idle` engaged in the mixer |
| `AnimationArbiter.Start` | src/components/Avatar.jsx:48 | the effect body: reset, fadeIn(0.5) and play on one clip (no contract of its own); `MountEngagesIdle`, `TransitionKeepsOneEngaged` and `AvatarModel.Avatar.constructor` state its effect |
| `AnimationArbiter.Transition` | src/components/Avatar.jsx:47-50 | the commands a change of clip issues: none exactly when the clip is the same; otherwise the first is fadeOut(0.5) on the old clip and the last is play on the new one |
| `AnimationArbiter.TransitionKeepsOneEngaged` | src/components/Avatar.jsx:47-50 | a transition from A to B leaves exactly B engaged; it issues commands if and only if B differs from A |
| `AvatarModel.Avatar.constructor` | src/components/Avatar.jsx:23-50 | the script is `scriptProp` or `HelloGalax` when the prop is falsy; the state is `Idle`; the mixer has received reset, fadeIn(0.5) and play on `Idle` |
| `AvatarModel.Avatar.SetAnimation` | src/components/Avatar.jsx:47-50 | a new clip appends fadeOut(0.5) on the old clip, then reset, fadeIn(0.5) and play on the new one; the same clip appends nothing; exactly the current clip stays engaged |
| `AvatarModel.Avatar.TriggerHello` | src/components/Avatar.jsx:53-59 | a truthy trigger sets the script to `HelloGalax` and the state to `Greeting` (no commands when already `Greeting`); a falsy one changes nothing |
| `AvatarModel.Avatar.OpenLips` | src/components/Avatar.jsx:62-71 | `viseme_I` is set to 1 on the head and on the teeth, each through its own dictionary; nothing else changes |
| `AvatarModel.Avatar.Frame` | src/components/Avatar.jsx:74-122 | while audio plays, the head array becomes the lip-sync pass of its old contents with peak 1 and the teeth array the same with peak 0.8, both indexed by the head's dictionary, and the clip is unchanged; while paused or ended, neither array changes and the clip becomes `Idle` |
| `AvatarModel.Avatar.Decay` | src/components/Avatar.jsx:86-99 | the decay loop on both arrays in place: each becomes the decay pass of its old contents, both indexed by the head's dictionary |
| `AvatarModel.Avatar.Attack` | src/components/Avatar.jsx:101-118 | the cue search in place: the channel of the first cue holding the time is pulled toward 1 on the head and 0.8 on the teeth, then the search stops; with no such cue, or a symbol or channel that does not resolve, nothing changes |
| `Densify.IsUpper` | src/components/AvatarParticles.jsx:24 | the vertex test `y > 0.05` on the vertex's second coordinate (no contract of its own); `CopiesLength` and `CopiesStep` state its role |
| `Densify.Jitter` | src/components/AvatarParticles.jsx:27-29 | the offset `(Math.random() - 0.5) * 0.003` for one draw (no contract of its own); `DensifiedNear` states its bound of 0.0015 |
| `Densify.Jittered` | src/components/AvatarParticles.jsx:26-30 | every pushed coordinate plus the jitter of its own draw, in push order; its contract keeps the length; `DensifiedNear`, `PushCopies` and `DensifyPositions` state its properties |
| `Densify.Copies` | src/components/AvatarParticles.jsx:19-33 | the coordinates the densifying loop pushes for the first `n` vertices, before jitter (no contract of its own); `CopiesLength`, `CopiesBound`, `CopiesPrefix`, `CopiesInVertexOrder` and `CopiesStep` state its properties |
| `Densify.CopiesBound` | src/components/AvatarParticles.jsx:19-33 | at most nine coordinates are pushed per vertex |
| `Densify.CopiesLength` | src/components/AvatarParticles.jsx:19-33 | nine coordinates are added per vertex with `y > 0.05`, none for a vertex with `y <= 0.05` |
| `Densify.CopiesPrefix` | src/components/AvatarParticles.jsx:19-33 | processing more vertices only appends to the copies already pushed |
| `Densify.CopiesInVertexOrder` | src/components/AvatarParticles.jsx:24-31 | the copies come three per source vertex, in source-vertex order: the k-th copied vertex occupies positions 9k to 9k+8 |
| `Densify.Densified` | src/components/AvatarParticles.jsx:36 | `[...original, ...upperPoints]`; its contract: the original buffer is the unchanged prefix, and the buffer at most quadruples (three copies per vertex at most) |
| `Densify.DensifiedNear` | src/components/AvatarParticles.jsx:25-36 | the original buffer is the unchanged prefix of the new one, and each added coordinate lies within 0.0015 of the coordinate it copies |
| `Densify.CopiesStep` | src/components/AvatarParticles.jsx:19-33 | one more vertex (x, y, z) adds its three copies exactly when `y > 0.05`, and the copies so far fit the draws of all vertices |
| `Densify.PushCopies` | src/components/AvatarParticles.jsx:25-31 | the inner loop pushes three jittered copies of one vertex, each coordinate taking the next draw |
| `Densify.NewBuffer` | src/components/AvatarParticles.jsx:36 | `new Float32Array([...])` is a fresh array holding exactly the given values |
| `Densify.DensifyPositions` | src/components/AvatarParticles.jsx:12-38 | the new buffer is fresh and equals the original followed by the jittered copies of the vertices above the threshold |
| `Breathing.Offset` | src/components/AvatarParticles.jsx:74-76 | the offset `0.002 * sin(time + 0.01 * i)` written from start index `i` (no contract of its own); `SameOffsetPerStart` and `BreathedBound` state its properties |
| `Breathing.Breathed` | src/components/AvatarParticles.jsx:73-77 | the breathing pass as a function of the current buffer, the baseline and the time; its contract keeps the length; `OnlyStrideEntriesChange`, `BreathedBound`, `SameOffsetPerStart` and `BreathedIdempotent` state its properties |
| `Breathing.OnlyStrideEntriesChange` | src/components/AvatarParticles.jsx:73-77 | only entries `k` with `k mod 10` in {0, 1, 2} change, and the length is unchanged |
| `Breathing.BreathedBound` | src/components/AvatarParticles.jsx:74-76 | every written entry differs from its baseline value by at most 0.002 |
| `Breathing.SameOffsetPerStart` | src/components/AvatarParticles.jsx:74-76 | the three entries written from start index `i` receive the same offset, `0.002 * sin(time + 0.01 * i)` |
| `Breathing.BreathedIdempotent` | src/components/AvatarParticles.jsx:74-76 | written values depend only on the baseline and the time, so a second pass with the same time gives the same array |
| `Breathing.BreathePart` | src/components/AvatarParticles.jsx:72-77 | the in-place loop turns the buffer into the breathing pass of its old contents; writes past the end of the typed array are dropped |
| `AvatarParticles.Particles.constructor` | src/components/AvatarParticles.jsx:5-6 | nine distinct parts with their own buffers, and no baselines yet |
| `AvatarParticles.Particles.Snapshot` | src/components/AvatarParticles.jsx:41-53 | each baseline is a copy of its part's buffer at that moment |
| `AvatarParticles.Particles.OnNodes` | src/components/AvatarParticles.jsx:12-53 | the body is densified first, then the baselines are taken, so every baseline has its buffer's length; the other parts keep their buffers |
| `AvatarParticles.Particles.Frame` | src/components/AvatarParticles.jsx:56-80 | every part with a baseline is breathed from it; the baselines and the buffer objects are unchanged; with no baselines nothing changes |

## Left out

- Audio playback, `audio.play()` and the autoplay catch: the audio element is the inputs `paused`, `ended` and the time. `TriggerHello` does not start playback.
- Asset loading and JSON parsing (`useLoader`, `useGLTF`, `useFBX`, `TextureLoader`, `JSON.parse`): the cue list is an input of each frame, so a script change does not reload it.
- The head's `lookAt` toward the camera: a three.js matrix operation.
- The animation mixer's fade curves and weights: only the commands it receives are modelled.
- React scheduling: the effects are explicit method calls. `OnNodes` runs the densify and baseline effects once, in declaration order. Re-running them for a new `nodes` object is not modelled.
- Rendering: the `<points>` material and `src/components/Experience.jsx`.
- Float32 rounding and the true `exp`, `sin` and `Math.random`: they are the bounded parameters described above. The periodic return of the breathing offset to zero is a property of `sin` and is not modelled.
- A dictionary name that is missing: the lerp passes of the frame write `NaN` to the array's `"undefined"` property, and the lip-opening effect writes `1` there. The model only states that no indexed entry changes.
- A cue symbol that names an inherited member of the table object (`toString`, `constructor`, `__proto__`, ...): the lookup yields a function or object, not `undefined`. Its dictionary lookup is still `undefined`, so the model treats it like any other unknown symbol.
- Dictionary indices past the end of an influence array: JavaScript would grow the array. `Avatar.Valid` requires every index to be in range for both arrays.
- Densify: the buffer length must be a multiple of 3, as a position attribute of item size 3 is. A trailing partial vertex (which would push `NaN`) is not modelled.

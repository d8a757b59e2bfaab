# Golem controller decision engine

A Dafny model of the per-frame decision engine of the golem enemy in the
Pandaria game (`GolemController`, a Unity `MonoBehaviour`). Each frame the
golem reads three perception booleans (target within sight range, within
attack range, within the view half-angle) and runs at most one of four
behaviours: Patrol, Chase, Rotate or Attack. Patrol picks random,
ground-checked waypoints around the golem and drops one on arrival; Attack
halts the golem and, unless it is cooling down, plays the attack animation
and schedules `ResetAttack` after `timeBetweenAttacks` seconds with `Invoke`.

The project has three modules:

- `GolemModel` (`golem_model.dfy`): the persistent state as a value
  (`State`: the waypoint and its flag, the cooldown flag, the navigation
  destination, the facing, the animator's current state, the `Animator.Play`
  calls issued, and the queue of scheduled `ResetAttack` deadlines), the
  engine's per-frame answers as a `Percept`, and one function per action of
  the controller from the old state to the new one, each with a contract
  stating what the action promises.
- `GolemController` (`golem_controller.dfy`): class `Golem`, with the
  source's fields and one method per source method, updating the fields in
  place. `Update` is written as the source's four independent `if`s; every
  method is proved to produce exactly the state the matching `GolemModel`
  function computes from the old state. The `Invoke` timer is the field
  `pendingResets` plus the method `Tick(now)`, which runs the oldest reset
  once `now` has reached its deadline.
- `GolemProperties` (`golem_properties.dfy`): any interleaving of timer
  callbacks and frames (`Run`) keeps the cooldown invariant; between an
  attack and its reset no frame triggers another attack; the reset re-arms
  the attack.

Engine queries are inputs of each frame: `Physics.CheckSphere` (both range
checks), `Vector3.Angle` (the measured angle; the comparison with
`viewAngle` is modelled), the ground `Physics.Raycast`, the two
`Random.Range` draws (assumed to lie in `[-walkPointRange, walkPointRange]`,
as `Random.Range` on floats guarantees for a non-negative `walkPointRange`), the rotation `Rotate` computes,
and the clock. Positions are exact `real` triples, and arrival compares the
squared distance with 1, which is the same test as the source's
`magnitude < 1`.

Some behaviours of `GolemController.cs` that the model keeps as written:

- `SearchWalkPoint` overwrites `walkPoint` with the candidate even when the
  ground probe fails (GolemController.cs:78-83). The arrival test can
  therefore run against a rejected candidate; one within 1 unit still plays
  "Idle".
- Patrol's arrival test (GolemController.cs:99-105) runs against the current
  `walkPoint`, which may be the candidate drawn in the same frame.
- When attack range holds and sight range does not, none of the four guards
  of `Update` (GolemController.cs:45-63) holds, so the frame changes nothing
  (`GolemModel.Update`).
- Sight and attack range come from `Physics.CheckSphere` collider-overlap
  queries (GolemController.cs:41-42), not from a distance comparison, so the
  model takes them as inputs.

## Model

| member | source | states |
|---|---|---|
| `GolemModel.Guards` | Assets/Scripts/Enemies/GolemController.cs:45-63 | the four independent guards of `Update` fire at most one behaviour, and none exactly when attack range holds and sight range does not |
| `GolemModel.Dispatch` | Assets/Scripts/Enemies/GolemController.cs:45-63 | the priority-ordered choice of behaviour is the single behaviour whose guard fires, or none when no guard fires |
| `GolemModel.Update` | Assets/Scripts/Enemies/GolemController.cs:39-71 | a frame with attack range but no sight range changes nothing; only Patrol changes the waypoint; only an Attack frame that is not cooling down changes the cooldown, and then it triggers once; Chase targets the character; Attack halts at the golem's position; the cooldown invariant is kept |
| `GolemController.Golem.Update` | Assets/Scripts/Enemies/GolemController.cs:39-64 | the four sequential `if`s over the recorded perception fields leave exactly the state `GolemModel.Update` selects, and keep the cooldown invariant |
| `GolemController.Golem.CheckIfInSightAngle` | Assets/Scripts/Enemies/GolemController.cs:66-71 | the target is in the view angle exactly when the measured angle is at most `viewAngle` |
| `GolemModel.SearchWalkPoint` | Assets/Scripts/Enemies/GolemController.cs:73-84 | the new waypoint has the golem's height and x and z offsets within `[-walkPointRange, walkPointRange]`; `walkPointSet` becomes true exactly when the probe succeeds and is never cleared; nothing else changes |
| `GolemController.Golem.SearchWalkPoint` | Assets/Scripts/Enemies/GolemController.cs:73-84 | the in-place search produces the state `GolemModel.SearchWalkPoint` gives |
| `GolemModel.PatrolStep` | Assets/Scripts/Enemies/GolemController.cs:85-106 | a waypoint already set is kept; a new one lies around the golem; strictly within 1 unit the waypoint is cleared and the animation is "Idle" (with Play taking effect at once, see "## Left out"); a waypoint held or found is the destination and is faced, on the arrival frame too; otherwise the golem walks toward it; `walkPointSet` afterwards is exactly "had or found a waypoint, and has not arrived"; with no waypoint found and no arrival, the destination, facing, animation and Play calls are unchanged; the Play calls issued are "Walk" while pursuing a waypoint and then "Idle" on arrival, each only when the animator is not already in it; the cooldown is untouched |
| `GolemController.Golem.Patrol` | Assets/Scripts/Enemies/GolemController.cs:85-106 | the in-place patrol produces the state `GolemModel.PatrolStep` gives and keeps the cooldown invariant |
| `GolemModel.PlayAnimation` | Assets/Scripts/Enemies/GolemController.cs:108-115 | the current animation ends equal to the requested one; a Play call is issued only when the animation differed; nothing else changes |
| `GolemController.Golem.PlayAnimation` | Assets/Scripts/Enemies/GolemController.cs:108-115 | the in-place guard produces the state `GolemModel.PlayAnimation` gives |
| `GolemModel.ChaseStep` | Assets/Scripts/Enemies/GolemController.cs:117-120 | the destination becomes the character's position and no other field changes |
| `GolemController.Golem.Chase` | Assets/Scripts/Enemies/GolemController.cs:117-120 | the in-place chase produces the state `GolemModel.ChaseStep` gives and keeps the cooldown invariant |
| `GolemModel.RotateStep` | Assets/Scripts/Enemies/GolemController.cs:122-127 | the facing becomes the engine-computed rotation and no other field changes |
| `GolemController.Golem.Rotate` | Assets/Scripts/Enemies/GolemController.cs:122-127 | the in-place rotation produces the state `GolemModel.RotateStep` gives and keeps the cooldown invariant |
| `GolemModel.AttackStep` | Assets/Scripts/Enemies/GolemController.cs:129-139 | the destination is always the golem's own position; when not cooling down the golem starts cooling down, plays "Attack01" (one Play call, none if already in it) and exactly one reset is queued at `now + timeBetweenAttacks`; when cooling down nothing else changes; the waypoint and facing are untouched; the cooldown invariant is kept |
| `GolemController.Golem.Attack` | Assets/Scripts/Enemies/GolemController.cs:129-139 | the in-place attack produces the state `GolemModel.AttackStep` gives and keeps the cooldown invariant |
| `GolemModel.ResetAttackStep` | Assets/Scripts/Enemies/GolemController.cs:141-145 | the golem stops cooling down and the animation is "Walk", with one Play call unless already walking; only the cooldown flag, the animation and the Play calls change |
| `GolemController.Golem.ResetAttack` | Assets/Scripts/Enemies/GolemController.cs:141-145 | the in-place reset produces the state `GolemModel.ResetAttackStep` gives |
| `GolemModel.TimerTick` | Assets/Scripts/Enemies/GolemController.cs:137-145 | before the oldest deadline nothing changes; at or after it that reset leaves the queue and `ResetAttack` runs, issuing one "Walk" Play call unless already walking; the waypoint, destination and facing are untouched; the cooldown invariant is kept |
| `GolemController.Golem.Tick` | Assets/Scripts/Enemies/GolemController.cs:137-145 | the in-place timer step produces the state `GolemModel.TimerTick` gives and keeps the cooldown invariant |
| `GolemController.Golem.constructor` | Assets/Scripts/Enemies/GolemController.cs:23-28 | a new golem has no waypoint, is not cooling down, has no reset queued and satisfies the cooldown invariant |
| `GolemProperties.Run` | Assets/Scripts/Enemies/GolemController.cs:39-64 | any sequence of frames and timer callbacks keeps the cooldown invariant: at most one reset is ever queued, and one is queued exactly while cooling down |
| `GolemProperties.NoRetriggerBeforeDeadline` | Assets/Scripts/Enemies/GolemController.cs:133-137 | while the only queued reset is due at a deadline, no sequence of events before that deadline ends the cooldown or queues another reset |
| `GolemProperties.CooldownRoundTrip` | Assets/Scripts/Enemies/GolemController.cs:129-145 | an attack frame at `t0` triggers and queues one reset at `t0 + timeBetweenAttacks`; events before then never trigger again; the timer at or after that time re-arms the golem with animation "Walk"; the next attack frame triggers again |

## Left out

- `Rotate`'s rotation maths (`Quaternion.LookRotation`, `Quaternion.Slerp`, scaled by `Time.deltaTime * rotationSpeed`): engine floating-point library code; the resulting forward direction is a frame input, and the model states only that the facing changes and nothing else.
- `transform.LookAt` in Patrol is recorded as "looking at the waypoint" rather than as a rotation.
- How the perception booleans are computed: `Physics.CheckSphere` with layer masks is an engine collider-overlap query, and `Vector3.Angle` is float trigonometry; both results are frame inputs. So `sightRange`, `attackRange` and `rotationSpeed` do not appear in the model's configuration.
- `Physics.Raycast` and `Random.Range`: engine calls whose results are frame inputs.
- NavMesh path-finding and movement: the golem's position is a frame input and the destination only a field. The agent's snapping of a destination onto the mesh is not modelled, so Patrol faces `walkPoint` itself.
- Animator internals: a Play call is taken to change the current state at once, although the engine applies it on its next evaluation. A log of issued Play calls stands in for the animator, and the animator changes state only through those Play calls: transitions the animator controller makes by itself, such as an attack clip exiting to another state, are not modelled.
- GolemModel.PatrolStep: its promise that arrival leaves the animation "Idle" holds only because Play takes effect at once in the model. In the engine, take an animator in "Idle", no waypoint, a successful probe and a candidate within 1 unit of the golem. Line 96 issues `Play("Walk")`, but in the same frame line 104 still reads "Idle" from the animator and issues no Play. The golem then walks in place with `walkPointSet` false, while the model ends in "Idle" having logged both Play calls. The same holds for any two `PlayAnimation` calls in one frame.
- Unity's frame order between `Update` and due `Invoke` callbacks is not fixed by the model. `GolemProperties.Run` accepts frames and timer callbacks in any interleaving.
- Cancelling pending `Invoke` calls when the golem is destroyed: there is no destruction in the model.
- `Awake` collider wiring, `ExtraOnCollisionEnter` damage dispatch (and the `damage` field), the empty `ExtraOnTriggerEnter`, and `OnDrawGizmosSelected`: engine glue, a call into `Character` (which is not part of this model), and debug drawing.
- A negative `walkPointRange`: the model admits random draws only for a non-negative `walkPointRange`, so with a negative one no frame at all is admitted. The inspector allows such a value, and the engine's `Random.Range` then still returns a value between the two bounds. The configuration is meant to be positive, and for a negative `walkPointRange` `GolemModel.Update` says nothing and `GolemProperties.Run` covers only timer callbacks.
- Single-precision floating point: positions, angles and times are exact reals.
- A missing `character` reference: the source would fault on it, and the model always has a target position.

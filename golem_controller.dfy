/** The golem controller as an object whose methods update its fields in
    place, one method per method of the source. Each method is proved to
    leave the object in the state the matching function of `GolemModel`
    computes from the old state. */
module GolemController {
  import M = GolemModel

  class Golem {
    const config: M.Config

    var walkPoint: M.Vec3
    var walkPointSet: bool
    var alreadyAttacked: bool
    var characterInSightRange: bool
    var characterInAttackRange: bool
    var characterInSightAngle: bool

    // Stand-ins for the engine objects the controller drives.
    var destination: M.Vec3         // navMeshAgent.destination
    var heading: M.Heading          // transform.rotation
    var animation: string           // the animator's current state
    var plays: seq<string>          // the Animator.Play calls issued
    var pendingResets: seq<real>    // deadlines of the ResetAttack calls scheduled by Invoke

    /** The persistent state, as a value. */
    function Abs(): M.State
      reads this
    {
      M.State(walkPoint, walkPointSet, alreadyAttacked, destination, heading, animation, plays, pendingResets)
    }

    ghost predicate Valid()
      reads this
    {
      M.CooldownInvariant(Abs())
    }

    /** A golem standing at `position`, facing `forward`, in animator state
        `initialAnimation`, with no waypoint and ready to attack. */
    constructor (config: M.Config, position: M.Vec3, forward: M.Vec3, initialAnimation: string)
      ensures Valid()
      ensures this.config == config
      ensures Abs() == M.State(M.Vec3(0.0, 0.0, 0.0), false, false, position, M.Facing(forward), initialAnimation, [], [])
      ensures !characterInSightRange && !characterInAttackRange && !characterInSightAngle
    {
      this.config := config;
      walkPoint := M.Vec3(0.0, 0.0, 0.0);
      walkPointSet := false;
      alreadyAttacked := false;
      characterInSightRange := false;
      characterInAttackRange := false;
      characterInSightAngle := false;
      destination := position;
      heading := M.Facing(forward);
      animation := initialAnimation;
      plays := [];
      pendingResets := [];
    }

    /** One frame: record the perception booleans, then run the four guarded actions. */
    method Update(p: M.Percept, now: real)
      requires M.PerceptOk(config, p)
      modifies this
      ensures Abs() == M.Update(old(Abs()), config, p, now)
      ensures characterInSightRange == p.sightHit && characterInAttackRange == p.attackHit
      ensures characterInSightAngle == M.InSightAngle(p.angle, config.viewAngle)
      ensures old(Valid()) ==> Valid()
    {
      ghost var before := Abs();
      characterInSightRange := p.sightHit;
      characterInAttackRange := p.attackHit;
      characterInSightAngle := CheckIfInSightAngle(p.angle);

      if !characterInAttackRange && !characterInSightRange {
        Patrol(p.position, p.randX, p.randZ, p.ground);
      }

      if !characterInAttackRange && characterInSightRange {
        Chase(p.target);
      }

      if characterInAttackRange && characterInSightRange && !characterInSightAngle {
        Rotate(p.turned);
      }

      if characterInAttackRange && characterInSightRange && characterInSightAngle {
        Attack(p.position, now);
      }

      // the one guarded action that ran is the one GolemModel.Update selects
      M.UpdateCases(before, config, p, now);
    }

    /** Is the target within the view half-angle, given the measured angle? */
    method CheckIfInSightAngle(angle: real) returns (inAngle: bool)
      ensures inAngle == M.InSightAngle(angle, config.viewAngle)
    {
      inAngle := angle <= config.viewAngle;
    }

    method SearchWalkPoint(position: M.Vec3, randX: real, randZ: real, ground: bool)
      requires M.InDrawRange(randX, config.walkPointRange) && M.InDrawRange(randZ, config.walkPointRange)
      modifies this`walkPoint, this`walkPointSet
      ensures Abs() == M.SearchWalkPoint(old(Abs()), config, position, randX, randZ, ground)
    {
      walkPoint := M.Vec3(position.x + randX, position.y, position.z + randZ);

      if ground {
        walkPointSet := true;
      }
    }

    method Patrol(position: M.Vec3, randX: real, randZ: real, ground: bool)
      requires M.InDrawRange(randX, config.walkPointRange) && M.InDrawRange(randZ, config.walkPointRange)
      modifies this`walkPoint, this`walkPointSet, this`destination, this`heading, this`animation, this`plays
      ensures Abs() == M.PatrolStep(old(Abs()), config, position, randX, randZ, ground)
      ensures old(Valid()) ==> Valid()
    {
      if !walkPointSet {
        SearchWalkPoint(position, randX, randZ, ground);
      }

      if walkPointSet {
        destination := walkPoint;
        heading := M.LookingAt(destination);
        PlayAnimation(M.WalkAnim);
      }

      if M.DistSq(position, walkPoint) < 1.0 {
        walkPointSet := false;
        PlayAnimation(M.IdleAnim);
      }
    }

    method PlayAnimation(name: string)
      modifies this`animation, this`plays
      ensures Abs() == M.PlayAnimation(old(Abs()), name)
    {
      if animation != name {
        plays := plays + [name];
        animation := name;
      }
    }

    method Chase(target: M.Vec3)
      modifies this`destination
      ensures Abs() == M.ChaseStep(old(Abs()), target)
      ensures old(Valid()) ==> Valid()
    {
      destination := target;
    }

    method Rotate(turned: M.Vec3)
      modifies this`heading
      ensures Abs() == M.RotateStep(old(Abs()), turned)
      ensures old(Valid()) ==> Valid()
    {
      heading := M.Facing(turned);
    }

    method Attack(position: M.Vec3, now: real)
      modifies this`destination, this`alreadyAttacked, this`animation, this`plays, this`pendingResets
      ensures Abs() == M.AttackStep(old(Abs()), config, position, now)
      ensures old(Valid()) ==> Valid()
    {
      destination := position;

      if !alreadyAttacked {
        PlayAnimation(M.AttackAnim);
        alreadyAttacked := true;
        pendingResets := pendingResets + [now + config.timeBetweenAttacks];
      }
    }

    method ResetAttack()
      modifies this`alreadyAttacked, this`animation, this`plays
      ensures Abs() == M.ResetAttackStep(old(Abs()))
    {
      alreadyAttacked := false;
      PlayAnimation(M.WalkAnim);
    }

    /** The engine's `Invoke` timer at time `now`: run the oldest scheduled
        reset once its deadline has passed. */
    method Tick(now: real)
      modifies this`pendingResets, this`alreadyAttacked, this`animation, this`plays
      ensures Abs() == M.TimerTick(old(Abs()), now)
      ensures old(Valid()) ==> Valid()
    {
      if pendingResets != [] && pendingResets[0] <= now {
        pendingResets := pendingResets[1..];
        ResetAttack();
      }
    }
  }
}

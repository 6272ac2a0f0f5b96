/** The `collision_handler` system of `src/game/yup.rs`: dropping yup-yup contacts
    from the physics engine's collision list, then turning each yup around once for
    every obstacle it touches. */
module Yup {
  import opened Ecs

  /** A contact pair in the physics engine's `Collisions` resource. */
  datatype Contact = Contact(entity1: Entity, entity2: Entity)

  /** A yup as the query `(Entity, &mut MovementSpeed), With<Yup>` yields it. */
  datatype YupSpeed = YupSpeed(entity: Entity, speed: real)

  /** The entities the yup query matches. */
  function YupEntities(yups: seq<YupSpeed>): (s: set<Entity>)
    ensures forall i :: 0 <= i < |yups| ==> yups[i].entity in s
    ensures forall e :: e in s ==> exists i :: 0 <= i < |yups| && yups[i].entity == e
  {
    set i | 0 <= i < |yups| :: yups[i].entity
  }

  /** The retain predicate: at least one side of the contact is not a yup. */
  predicate Keep(c: Contact, yups: set<Entity>) {
    c.entity1 !in yups || c.entity2 !in yups
  }

  /** `Collisions::retain` with `Keep`, in list order. */
  function Retain(cs: seq<Contact>, yups: set<Entity>): (r: seq<Contact>)
    ensures |r| <= |cs|
    ensures forall c :: c in r <==> c in cs && Keep(c, yups)
    decreases |cs|
  {
    if |cs| == 0 then []
    else if Keep(cs[0], yups) then [cs[0]] + Retain(cs[1..], yups)
    else Retain(cs[1..], yups)
  }

  /** Retaining distributes over concatenation: the retained contacts keep their
      relative order. */
  lemma {:induction false} RetainAppend(a: seq<Contact>, b: seq<Contact>, yups: set<Entity>)
    ensures Retain(a + b, yups) == Retain(a, yups) + Retain(b, yups)
    decreases |a|
  {
    if |a| == 0 {
      assert a + b == b;
    } else {
      assert (a + b)[0] == a[0];
      assert (a + b)[1..] == a[1..] + b;
      RetainAppend(a[1..], b, yups);
    }
  }

  /** A list in which every contact involves a non-yup is kept whole. */
  lemma {:induction false} RetainKeepsAll(cs: seq<Contact>, yups: set<Entity>)
    requires forall i :: 0 <= i < |cs| ==> Keep(cs[i], yups)
    ensures Retain(cs, yups) == cs
    decreases |cs|
  {
    if |cs| > 0 {
      RetainKeepsAll(cs[1..], yups);
    }
  }

  /** Retaining twice is retaining once. */
  lemma RetainIdempotent(cs: seq<Contact>, yups: set<Entity>)
    ensures Retain(Retain(cs, yups), yups) == Retain(cs, yups)
  {
    var r := Retain(cs, yups);
    assert forall i :: 0 <= i < |r| ==> r[i] in r;
    RetainKeepsAll(r, yups);
  }

  /** `Collisions::contains`: the pair touches, in either order. */
  predicate Touching(cs: seq<Contact>, a: Entity, b: Entity) {
    Contact(a, b) in cs || Contact(b, a) in cs
  }

  /** How many obstacles of the iteration `yup` touches. */
  function ObstacleContacts(cs: seq<Contact>, yup: Entity, obstacles: seq<Entity>): (n: nat)
    ensures n <= |obstacles|
    decreases |obstacles|
  {
    if |obstacles| == 0 then 0
    else (if Touching(cs, yup, obstacles[0]) then 1 else 0) + ObstacleContacts(cs, yup, obstacles[1..])
  }

  /** The inner loop: for each obstacle in turn, negate the speed if the yup touches it. */
  function Bounce(speed: real, cs: seq<Contact>, yup: Entity, obstacles: seq<Entity>): real
    decreases |obstacles|
  {
    if |obstacles| == 0 then speed
    else Bounce(if Touching(cs, yup, obstacles[0]) then -speed else speed, cs, yup, obstacles[1..])
  }

  /** The speed ends negated exactly when the yup touched an odd number of obstacles. */
  lemma {:induction false} BounceParity(speed: real, cs: seq<Contact>, yup: Entity, obstacles: seq<Entity>)
    ensures Bounce(speed, cs, yup, obstacles)
            == if ObstacleContacts(cs, yup, obstacles) % 2 == 1 then -speed else speed
    decreases |obstacles|
  {
    if |obstacles| > 0 {
      var next := if Touching(cs, yup, obstacles[0]) then -speed else speed;
      BounceParity(next, cs, yup, obstacles[1..]);
    }
  }

  /** The system's output: the retained contacts and the yups with their new speeds. */
  datatype Handled = Handled(collisions: seq<Contact>, yups: seq<YupSpeed>)

  /** `collision_handler`: yup-yup contacts are dropped; then every yup's speed is
      negated once per obstacle it still touches. Only speeds change, and only in sign. */
  function CollisionHandler(cs: seq<Contact>, obstacles: seq<Entity>, yups: seq<YupSpeed>): (r: Handled)
    ensures r.collisions == Retain(cs, YupEntities(yups))
    ensures forall c :: c in r.collisions <==> c in cs && Keep(c, YupEntities(yups))
    ensures |r.yups| == |yups|
    ensures forall i :: 0 <= i < |yups| ==>
              && r.yups[i].entity == yups[i].entity
              && r.yups[i].speed == if ObstacleContacts(r.collisions, yups[i].entity, obstacles) % 2 == 1
                                    then -yups[i].speed else yups[i].speed
  {
    var kept := Retain(cs, YupEntities(yups));
    var bounced := seq(|yups|, i requires 0 <= i < |yups| =>
                     YupSpeed(yups[i].entity, Bounce(yups[i].speed, kept, yups[i].entity, obstacles)));
    assert forall i :: 0 <= i < |yups| ==>
             bounced[i].speed == if ObstacleContacts(kept, yups[i].entity, obstacles) % 2 == 1
                                 then -yups[i].speed else yups[i].speed by {
      forall i | 0 <= i < |yups|
        ensures bounced[i].speed == if ObstacleContacts(kept, yups[i].entity, obstacles) % 2 == 1
                                    then -yups[i].speed else yups[i].speed
      {
        BounceParity(yups[i].speed, kept, yups[i].entity, obstacles);
      }
    }
    Handled(kept, bounced)
  }
}

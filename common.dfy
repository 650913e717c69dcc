/**
 * Vocabulary shared by the four controllers: contact identities, planar
 * points, the contacts a controller is handed on each tick, and the lookup
 * of a contact by identity in a ranked list.
 */
module Common {

  /** Identity of a contact. The controllers derive it from the contact's
      position; the model keeps it abstract. */
  type Id = int

  datatype Option<T> = None | Some(value: T)

  datatype Point = Point(x: real, y: real)

  /** A Euclidean distance, as computed by the host platform. */
  type Distance = d: real | 0.0 <= d

  /** A horizontal speed, as reported by the simulation. */
  type Speed = v: real | 0.0 <= v

  /** A position or a velocity together with the tick it belongs to. */
  datatype Stamped = Stamped(time: nat, p: Point)

  /** What kind of object a contact is, as the simulation reports it. */
  datatype Kind = Ship | SelfPropelledDecoy | StationaryDecoy | Unclassified

  /** One detected contact on the current tick: identity, position, range
      from the own platform, kind and horizontal speed. */
  datatype Contact = Contact(id: Id, pos: Point, range: Distance, kind: Kind, speed: Speed)

  function Max(a: real, b: real): real { if a >= b then a else b }

  function Min(a: real, b: real): real { if a <= b then a else b }

  function Abs(a: real): real { if a < 0.0 then -a else a }

  /** Python's `sum`: the values added left to right, starting from 0. */
  function Sum(xs: seq<real>): real
    decreases |xs|
  {
    if xs == [] then 0.0 else Sum(xs[..|xs| - 1]) + xs[|xs| - 1]
  }

  /** Squared Euclidean distance; comparing these orders points exactly as
      comparing the square roots would. */
  function SquaredDistance(p: Point, q: Point): real
  {
    (p.x - q.x) * (p.x - q.x) + (p.y - q.y) * (p.y - q.y)
  }

  /** `counts.get(id, 0)`. */
  function CountOf(counts: map<Id, nat>, id: Id): nat
  {
    if id in counts then counts[id] else 0
  }

  /** One more observation of `id`. */
  function Bump(counts: map<Id, nat>, id: Id): (r: map<Id, nat>)
    ensures CountOf(r, id) == CountOf(counts, id) + 1
    ensures forall other :: other != id ==> CountOf(r, other) == CountOf(counts, other)
  {
    counts[id := CountOf(counts, id) + 1]
  }

  /** Position of the first contact of `s` whose identity is `id`, or `|s|`
      when there is none (the controllers' linear scan of their ranked list). */
  function Locate(s: seq<Contact>, id: Id): (k: nat)
    ensures k <= |s|
    ensures k < |s| ==> s[k].id == id
    ensures forall j :: 0 <= j < k ==> s[j].id != id
  {
    if s == [] then 0
    else if s[0].id == id then 0
    else 1 + Locate(s[1..], id)
  }

  /** The controllers' scan of their ranked list for the locked identity,
      stopping at the first match. */
  method FindFirst(s: seq<Contact>, id: Id) returns (k: nat)
    ensures k == Locate(s, id)
  {
    k := 0;
    while k < |s| && s[k].id != id
      invariant k <= |s|
      invariant forall j :: 0 <= j < k ==> s[j].id != id
    {
      k := k + 1;
    }
  }
}

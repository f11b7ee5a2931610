/** Positions on a track: a group, and an object within it.
    The order is lexicographic; both coordinates stop at the largest
    variable-length integer the wire can carry. */
module Locations {

  datatype Option<+T> = None | Some(value: T)

  /** kLocationMax holds this value in both of its fields. */
  const LIMIT: nat := 0x3fff_ffff_ffff_ffff

  datatype Position = Position(group: nat, obj: nat)

  type Location = p: Position | p.group <= LIMIT && p.obj <= LIMIT witness Position(0, 0)

  const LAST: Location := Position(LIMIT, LIMIT)

  predicate Lt(a: Location, b: Location) {
    a.group < b.group || (a.group == b.group && a.obj < b.obj)
  }

  predicate Le(a: Location, b: Location) {
    !Lt(b, a)
  }

  function Min(a: Location, b: Location): Location {
    if Lt(b, a) then b else a
  }

  function Max(a: Location, b: Location): Location {
    if Lt(a, b) then b else a
  }

  /** Steps by one position, carrying across groups. */
  function Next(a: Location): Option<Location> {
    if a.obj < LIMIT then Some(Position(a.group, a.obj + 1))
    else if a.group < LIMIT then Some(Position(a.group + 1, 0))
    else None
  }

  function Prev(a: Location): Option<Location> {
    if a.obj > 0 then Some(Position(a.group, a.obj - 1))
    else if a.group > 0 then Some(Position(a.group - 1, LIMIT))
    else None
  }

  function NextInGroup(a: Location): Option<Location> {
    if a.obj < LIMIT then Some(Position(a.group, a.obj + 1)) else None
  }

  function PrevInGroup(a: Location): Option<Location> {
    if a.obj > 0 then Some(Position(a.group, a.obj - 1)) else None
  }

  /** The first position of the following group. */
  function NextGroup(a: Location): Option<Location> {
    if a.group < LIMIT then Some(Position(a.group + 1, 0)) else None
  }

  /** The last position of the preceding group. */
  function PrevGroupEnd(a: Location): Option<Location> {
    if a.group > 0 then Some(Position(a.group - 1, LIMIT)) else None
  }

  function GroupStart(group: nat): Location
    requires group <= LIMIT
  {
    Position(group, 0)
  }

  function GroupEnd(group: nat): Location
    requires group <= LIMIT
  {
    Position(group, LIMIT)
  }

  /** How far a position is from the end of the track; a termination measure. */
  function Distance(a: Location, b: Location): (d: int)
    ensures Lt(a, b) <==> d > 0
    ensures a == b <==> d == 0
  {
    (b.group - a.group) * (LIMIT + 1) + (b.obj - a.obj)
  }
}

/** The part of `reserved_path?` that does not consult the route table: a
    cleaned path is reserved when "/" followed by it starts with "/static". */
module ReservedPath {

  function StaticReserved(cleaned: string): (b: bool)
    ensures b <==> "static" <= cleaned
  {
    assert ("/" + cleaned)[1..] == cleaned;
    "/static" <= "/" + cleaned
  }

  /** `reserved_path?`, with the answer of the route-table test (which this
      model does not cover) given as routeMatch. */
  function IsReserved(cleaned: string, routeMatch: bool): (b: bool)
    ensures b <==> ("static" <= cleaned || routeMatch)
  {
    StaticReserved(cleaned) || routeMatch
  }

  /** The test is on characters, not path segments: every path whose name
      begins with "static" is reserved, not only the static directory. */
  lemma StaticNameIsReserved(rest: string)
    ensures StaticReserved("static" + rest)
  {
  }
}

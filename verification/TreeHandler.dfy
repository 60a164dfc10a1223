// The handler of `GET /api/workspace/tree` reads the body the dispatcher made of the query.
module TreeHandler {
  import opened Text
  import opened Queries

  const DEFAULT_DEPTH: nat := 2
  const MAX_DEPTH: nat := 8
  const DEFAULT_ENTRIES: nat := 200
  const MAX_ENTRIES: nat := 2000

  /** What the handler goes by: the path below the root, how deep to list and how many entries. */
  datatype TreeQuery = TreeQuery(path: string, depth: nat, maxEntries: nat)

  function Get(body: Body, key: string): Option<QueryValue> {
    if key in body then Some(body[key]) else None
  }

  /** `as_str`. */
  function AsText(v: Option<QueryValue>): Option<string> {
    if v.Some? && v.value.TextValue? then Some(v.value.text) else None
  }

  /** `as_u64`: a text is no number, whatever it spells. */
  function AsNumber(v: Option<QueryValue>): Option<nat> {
    if v.Some? && v.value.NumberValue? then Some(v.value.n) else None
  }

  function OrElse<T>(v: Option<T>, default: T): T {
    match v
    case Some(x) => x
    case None => default
  }

  function Min(a: nat, b: nat): nat {
    if a <= b then a else b
  }

  function ReadTreeQuery(body: Body): TreeQuery {
    TreeQuery(
      OrElse(AsText(Get(body, "path")), ""),
      Min(OrElse(AsNumber(Get(body, "depth")), DEFAULT_DEPTH), MAX_DEPTH),
      Min(OrElse(AsNumber(Get(body, "max_entries")), DEFAULT_ENTRIES), MAX_ENTRIES))
  }

  /** No body makes the handler list deeper than 8 levels or more than 2000 entries; smaller numbers are used. */
  lemma ListingIsCapped(body: Body)
    ensures ReadTreeQuery(body).depth <= 8 && ReadTreeQuery(body).maxEntries <= 2000
    ensures forall n :: Get(body, "depth") == Some(NumberValue(n)) ==>
      (ReadTreeQuery(body).depth == n <==> n <= 8)
    ensures forall n :: Get(body, "max_entries") == Some(NumberValue(n)) ==>
      (ReadTreeQuery(body).maxEntries == n <==> n <= 2000)
  {
  }

  /** What the caller asks for: the defaults for what is left out, and never more than the caps. */
  function Requested(n: Option<nat>, default: nat, cap: nat): nat {
    Min(OrElse(n, default), cap)
  }

  /** The request as the handler reads it, from what the caller passes to the desktop shell. */
  function TreeQueryOf(path: Option<string>, depth: Option<nat>, maxEntries: Option<nat>): TreeQuery {
    ReadTreeQuery(Received(TreeRequest(TreeFields(path, depth, maxEntries))).1)
  }

  /** The query arrives as texts: the handler lists with its own defaults, on one character per path byte. */
  lemma NumbersOfTheQueryAreIgnored(path: Option<string>, depth: Option<nat>, maxEntries: Option<nat>)
    ensures TreeQueryOf(path, depth, maxEntries)
      == TreeQuery(Latin1(Utf8(OrElse(path, ""))), DEFAULT_DEPTH, DEFAULT_ENTRIES)
  {
    TreeRequestIsReceived(path, depth, maxEntries);
    TreeFieldsAreRecovered(path, depth, maxEntries);
    assert Utf8("") == [] && Latin1([]) == "";
  }

  /**
   * The handler uses the depth and the number of entries the caller asks for iff they are left out or
   * equal the defaults, and the path iff it is ASCII.
   */
  lemma TreeQueryIsHonouredIff(path: Option<string>, depth: Option<nat>, maxEntries: Option<nat>)
    ensures var read := TreeQueryOf(path, depth, maxEntries);
      && (read.depth == Requested(depth, DEFAULT_DEPTH, MAX_DEPTH)
          <==> depth.None? || depth.value == DEFAULT_DEPTH)
      && (read.maxEntries == Requested(maxEntries, DEFAULT_ENTRIES, MAX_ENTRIES)
          <==> maxEntries.None? || maxEntries.value == DEFAULT_ENTRIES)
      && (read.path == OrElse(path, "") <==> IsAscii(OrElse(path, "")))
  {
    NumbersOfTheQueryAreIgnored(path, depth, maxEntries);
    DecodingUndoesEncodingIff(OrElse(path, ""));
  }

  /** A caller that asks for five levels gets two. */
  lemma FiveLevelsAreReadAsTwo(path: Option<string>, maxEntries: Option<nat>)
    ensures Requested(Some(5), DEFAULT_DEPTH, MAX_DEPTH) == 5
    ensures TreeQueryOf(path, Some(5), maxEntries).depth == 2
  {
    NumbersOfTheQueryAreIgnored(path, Some(5), maxEntries);
  }
}

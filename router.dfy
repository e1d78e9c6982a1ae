/**
 * The query-string handling of the GUI router: a route
 * `page?key=value?key=value` selects the view registered under `page` and
 * stores each query value under its key in the router's `data` map. Views
 * are represented by their page keys; `shown` is the page whose view was
 * last placed in the body.
 */
module Routing {
  import opened Wrappers
  import opened Text

  datatype RouteError = IndexError | KeyError

  /** The text of `s` before its first `c`, or all of `s`. */
  function Before(s: string, c: char): string {
    if c in s then s[..IndexOf(s, c)] else s
  }

  /**
   * One `?`-segment as `(key, value)`: the text before the first `=`, and
   * the text between the first and the second `=` with `+` read as a space;
   * `None` when there is no `=`.
   */
  function ParseQuery(item: string): (r: Option<(string, string)>)
    ensures r.None? <==> '=' !in item
    ensures r.Some? ==>
      && r.value.0 == Before(item, '=')
      && r.value.1 == ReplaceChar(Before(item[IndexOf(item, '=') + 1..], '='), '+', ' ')
  {
    var parts := Split(item, '=');
    SplitCount(item, '=');
    SplitHead(item, '=');
    if |parts| < 2 then None
    else
      SplitHead(item[IndexOf(item, '=') + 1..], '=');
      Some((parts[0], ReplaceChar(parts[1], '+', ' ')))
  }

  /** The index of the first segment without `=`, if any. */
  function FirstBadQuery(queries: seq<string>): (r: Option<nat>)
    ensures r.Some? ==>
      && r.value < |queries| && ParseQuery(queries[r.value]).None?
      && (forall j :: 0 <= j < r.value ==> ParseQuery(queries[j]).Some?)
    ensures r.None? ==> forall j :: 0 <= j < |queries| ==> ParseQuery(queries[j]).Some?
  {
    if queries == [] then None
    else if ParseQuery(queries[0]).None? then Some(0)
    else
      match FirstBadQuery(queries[1..])
      case None => None
      case Some(j) => Some(j + 1)
  }

  /** `data` after writing the well-formed segments of `queries` in order. */
  function Written(data: map<string, string>, queries: seq<string>): map<string, string>
    decreases |queries|
  {
    if queries == [] then data
    else
      var before := Written(data, queries[..|queries| - 1]);
      match ParseQuery(queries[|queries| - 1])
      case None => before
      case Some((k, v)) => before[k := v]
  }

  /** The value the last well-formed segment with key `k` carries, if any. */
  function LastValue(queries: seq<string>, k: string): Option<string>
    decreases |queries|
  {
    if queries == [] then None
    else
      var last := ParseQuery(queries[|queries| - 1]);
      if last.Some? && last.value.0 == k then Some(last.value.1)
      else LastValue(queries[..|queries| - 1], k)
  }

  /**
   * Later segments win: a key that some segment sets holds the value of the
   * last such segment, and every other key keeps its previous value.
   */
  lemma {:induction false} LastWriteWins(data: map<string, string>, queries: seq<string>, k: string)
    ensures var after := Written(data, queries);
      match LastValue(queries, k)
      case Some(v) => k in after && after[k] == v
      case None => (k in after <==> k in data) && (k in data ==> after[k] == data[k])
    decreases |queries|
  {
    if queries != [] {
      LastWriteWins(data, queries[..|queries| - 1], k);
    }
  }

  /** A route with no `?` has no segments, so `data` is left as it was. */
  lemma NoQueryKeepsData(data: map<string, string>, route: string)
    requires '?' !in route
    ensures Split(route, '?')[1..] == [] && Written(data, Split(route, '?')[1..]) == data
  {
    SplitCount(route, '?');
    assert multiset(route)['?'] == 0;
  }

  class Router {
    var data: map<string, string>
    /** The page keys with a registered view. */
    var routes: set<string>
    var shown: Option<string>

    constructor ()
      ensures data == map[] && routes == {} && shown == None
    {
      data := map[];
      routes := {};
      shown := None;
    }

    /**
     * `route_change`: the page key is the text before the first `?`; each
     * further segment is written into `data` until one has no `=`, which
     * raises IndexError; an unregistered page raises KeyError once all
     * segments are written.
     */
    method RouteChange(route: string) returns (r: Result<(), RouteError>)
      modifies this
      ensures routes == old(routes)
      ensures var page, queries := Split(route, '?')[0], Split(route, '?')[1..];
        match FirstBadQuery(queries)
        case Some(bad) =>
          r == Failure(IndexError) && data == Written(old(data), queries[..bad]) && shown == old(shown)
        case None =>
          && data == Written(old(data), queries)
          && (page in routes ==> r == Success(()) && shown == Some(page))
          && (page !in routes ==> r == Failure(KeyError) && shown == old(shown))
    {
      var parts := Split(route, '?');
      var page := parts[0];
      var queries := parts[1..];
      ghost var data0 := data;
      var i := 0;
      while i < |queries|
        invariant 0 <= i <= |queries|
        invariant forall j :: 0 <= j < i ==> ParseQuery(queries[j]).Some?
        invariant data == Written(data0, queries[..i])
        invariant shown == old(shown) && routes == old(routes)
      {
        var item := queries[i];
        var pieces := Split(item, '=');
        var key := pieces[0];
        if |pieces| < 2 {
          SplitCount(item, '=');
          assert FirstBadQuery(queries) == Some(i) by {
            FirstBadIs(queries, i);
          }
          return Failure(IndexError);
        }
        var value := pieces[1];
        data := data[key := ReplaceChar(value, '+', ' ')];
        assert queries[..i + 1][..i] == queries[..i];
        i := i + 1;
      }
      assert queries[..i] == queries;
      NoBadQuery(queries);
      if page !in routes {
        return Failure(KeyError);
      }
      shown := Some(page);
      r := Success(());
    }
  }

  lemma {:induction false} FirstBadIs(queries: seq<string>, i: nat)
    requires i < |queries| && ParseQuery(queries[i]).None?
    requires forall j :: 0 <= j < i ==> ParseQuery(queries[j]).Some?
    ensures FirstBadQuery(queries) == Some(i)
    decreases i
  {
    if i > 0 {
      FirstBadIs(queries[1..], i - 1);
    }
  }

  lemma {:induction false} NoBadQuery(queries: seq<string>)
    requires forall j :: 0 <= j < |queries| ==> ParseQuery(queries[j]).Some?
    ensures FirstBadQuery(queries) == None
    decreases |queries|
  {
    if queries != [] {
      NoBadQuery(queries[1..]);
    }
  }
}

/** The URL rewriting of the transport (transport/websocket.py). A URL is its five parts (section 3 of
    RFC 3986), the query already split into decoded name-value pairs. */
module Urls {
  import opened Values

  type Pair = (string, string)

  datatype Url = Url(scheme: string, netloc: string, path: string, query: seq<Pair>, fragment: string)

  /** `_replace_scheme`. */
  function ReplaceScheme(u: Url, ws: bool): Url {
    u.(scheme := if ws then (if u.scheme == "http" then "ws" else if u.scheme == "https" then "wss" else u.scheme)
                 else (if u.scheme == "ws" then "http" else if u.scheme == "wss" then "https" else u.scheme))
  }

  /** `path.rstrip("/")`. */
  function StripSlashes(path: string): string {
    if path != "" && path[|path| - 1] == '/' then StripSlashes(path[..|path| - 1]) else path
  }

  /** `_get_negotiate_url`. */
  function NegotiateUrl(u: Url): Url {
    ReplaceScheme(u.(path := StripSlashes(u.path) + "/negotiate"), false)
  }

  /** The negotiation address is the same for the websocket form of a URL and for the URL itself, and
      slashes at the end of the path make no difference. */
  lemma NegotiateUrlOfForms(u: Url)
    ensures NegotiateUrl(ReplaceScheme(u, true)) == NegotiateUrl(u)
    ensures NegotiateUrl(ReplaceScheme(u, false)) == NegotiateUrl(u)
    ensures NegotiateUrl(u.(path := u.path + "/")) == NegotiateUrl(u)
    ensures u.scheme == "ws" || u.scheme == "wss" ==> ReplaceScheme(ReplaceScheme(u, false), true) == u
    ensures u.scheme == "http" || u.scheme == "https" ==> ReplaceScheme(ReplaceScheme(u, true), false) == u
  {
    assert (u.path + "/")[..|u.path|] == u.path;
  }

  lemma {:induction false} StrippedPath(path: string)
    ensures StripSlashes(path) <= path
    ensures forall i :: |StripSlashes(path)| <= i < |path| ==> path[i] == '/'
    ensures StripSlashes(path) == "" || StripSlashes(path)[|StripSlashes(path)| - 1] != '/'
  {
    if path != "" && path[|path| - 1] == '/' {
      StrippedPath(path[..|path| - 1]);
    }
  }

  /** Slashes at the end of a path. */
  predicate OnlySlashes(rest: string) {
    forall i :: 0 <= i < |rest| ==> rest[i] == '/'
  }

  /** The negotiation address: http or https, the same place and query, and the path without its last
      slashes followed by "/negotiate". */
  lemma NegotiateAddress(u: Url)
    ensures var a := NegotiateUrl(u);
            && a.scheme == (match u.scheme case "ws" => "http" case "wss" => "https" case other => other)
            && a.netloc == u.netloc && a.query == u.query && a.fragment == u.fragment
            && exists front, rest :: u.path == front + rest && OnlySlashes(rest) && a.path == front + "/negotiate"
                                     && (front == "" || front[|front| - 1] != '/')
  {
    StrippedPath(u.path);
    var front := StripSlashes(u.path);
    var rest := u.path[|front|..];
    assert u.path == front + rest && OnlySlashes(rest);
  }

  /* ---------- query strings ---------- */

  /** A query as `parse_qs` returns it: each name once, with its values. */
  type Query = seq<(string, seq<string>)>

  /** Pairs with a blank value are dropped. */
  function NonBlank(pairs: seq<Pair>): seq<Pair> {
    if pairs == [] then [] else (if pairs[0].1 == "" then [] else [pairs[0]]) + NonBlank(pairs[1..])
  }

  /** `d.setdefault(name, []).append(value)`. */
  function Add(d: Query, p: Pair): Query {
    if d == [] then [(p.0, [p.1])]
    else if d[0].0 == p.0 then [(p.0, d[0].1 + [p.1])] + d[1..]
    else [d[0]] + Add(d[1..], p)
  }

  function GroupInto(d: Query, pairs: seq<Pair>): Query
    decreases |pairs|
  {
    if pairs == [] then d else GroupInto(Add(d, pairs[0]), pairs[1..])
  }

  /** `parse_qs`. */
  function Parsed(pairs: seq<Pair>): Query {
    GroupInto([], NonBlank(pairs))
  }

  function PairsOf(name: string, values: seq<string>): seq<Pair> {
    seq(|values|, i requires 0 <= i < |values| => (name, values[i]))
  }

  /** `urlencode(d, doseq=True)`. */
  function Flat(d: Query): seq<Pair> {
    if d == [] then [] else PairsOf(d[0].0, d[0].1) + Flat(d[1..])
  }

  /** `d[name] = values`. */
  function Set(d: Query, name: string, values: seq<string>): Query {
    if d == [] then [(name, values)]
    else if d[0].0 == name then [(name, values)] + d[1..]
    else [d[0]] + Set(d[1..], name, values)
  }

  /** `encode_connection_id`. */
  function EncodeConnectionId(u: Url, id: string): Url {
    ReplaceScheme(u.(query := Flat(Set(Parsed(u.query), "id", [id]))), true)
  }

  /* ---------- grouping undoes flattening ---------- */

  predicate Lacks(d: Query, name: string) {
    forall i :: 0 <= i < |d| ==> d[i].0 != name
  }

  /** What `parse_qs` returns: distinct names, each with some values, none of them blank. */
  predicate Proper(d: Query) {
    d == []
    || (d[0].1 != [] && (forall i :: 0 <= i < |d[0].1| ==> d[0].1[i] != "") && Lacks(d[1..], d[0].0) && Proper(d[1..]))
  }

  lemma {:induction false} GroupConcat(d: Query, a: seq<Pair>, b: seq<Pair>)
    ensures GroupInto(d, a + b) == GroupInto(GroupInto(d, a), b)
    decreases |a|
  {
    if a == [] {
      assert a + b == b;
    } else {
      assert (a + b)[1..] == a[1..] + b;
      GroupConcat(Add(d, a[0]), a[1..], b);
    }
  }

  lemma {:induction false} AddNew(d: Query, p: Pair)
    requires Lacks(d, p.0)
    ensures Add(d, p) == d + [(p.0, [p.1])]
  {
    if d != [] {
      AddNew(d[1..], p);
    }
  }

  lemma {:induction false} AddLast(d: Query, name: string, values: seq<string>, v: string)
    requires Lacks(d, name)
    ensures Add(d + [(name, values)], (name, v)) == d + [(name, values + [v])]
  {
    if d == [] {
      assert d + [(name, values)] == [(name, values)];
    } else {
      AddLast(d[1..], name, values, v);
      assert (d + [(name, values)])[1..] == d[1..] + [(name, values)];
    }
  }

  lemma {:induction false} GroupMore(d: Query, name: string, had: seq<string>, values: seq<string>)
    requires Lacks(d, name)
    ensures GroupInto(d + [(name, had)], PairsOf(name, values)) == d + [(name, had + values)]
    decreases |values|
  {
    if values == [] {
      assert had + values == had;
    } else {
      AddLast(d, name, had, values[0]);
      assert PairsOf(name, values)[1..] == PairsOf(name, values[1..]);
      GroupMore(d, name, had + [values[0]], values[1..]);
      assert (had + [values[0]]) + values[1..] == had + values;
    }
  }

  lemma GroupOne(d: Query, name: string, values: seq<string>)
    requires Lacks(d, name) && values != []
    ensures GroupInto(d, PairsOf(name, values)) == d + [(name, values)]
  {
    AddNew(d, (name, values[0]));
    assert PairsOf(name, values)[1..] == PairsOf(name, values[1..]);
    GroupMore(d, name, [values[0]], values[1..]);
    assert [values[0]] + values[1..] == values;
  }

  lemma {:induction false} GroupFlatInto(acc: Query, d: Query)
    requires Proper(d) && forall i :: 0 <= i < |d| ==> Lacks(acc, d[i].0)
    ensures GroupInto(acc, Flat(d)) == acc + d
    decreases |d|
  {
    if d == [] {
      assert acc + d == acc;
    } else {
      GroupConcat(acc, PairsOf(d[0].0, d[0].1), Flat(d[1..]));
      GroupOne(acc, d[0].0, d[0].1);
      var grown := acc + [d[0]];
      forall i | 0 <= i < |d[1..]| ensures Lacks(grown, d[1..][i].0) {
        assert Lacks(acc, d[i + 1].0);
      }
      GroupFlatInto(grown, d[1..]);
      assert grown + d[1..] == acc + d;
    }
  }

  lemma {:induction false} NonBlankConcat(a: seq<Pair>, b: seq<Pair>)
    ensures NonBlank(a + b) == NonBlank(a) + NonBlank(b)
  {
    if a == [] {
      assert a + b == b;
    } else {
      assert (a + b)[1..] == a[1..] + b;
      NonBlankConcat(a[1..], b);
    }
  }

  lemma {:induction false} NonBlankAll(pairs: seq<Pair>)
    requires forall i :: 0 <= i < |pairs| ==> pairs[i].1 != ""
    ensures NonBlank(pairs) == pairs
  {
    if pairs != [] {
      NonBlankAll(pairs[1..]);
    }
  }

  lemma {:induction false} NonBlankFlat(d: Query)
    requires Proper(d)
    ensures NonBlank(Flat(d)) == Flat(d)
  {
    if d != [] {
      NonBlankAll(PairsOf(d[0].0, d[0].1));
      NonBlankFlat(d[1..]);
      NonBlankConcat(PairsOf(d[0].0, d[0].1), Flat(d[1..]));
    }
  }

  /** Parsing a flattened proper query gives it back. */
  lemma ParsedFlat(d: Query)
    requires Proper(d)
    ensures Parsed(Flat(d)) == d
  {
    NonBlankFlat(d);
    GroupFlatInto([], d);
    assert [] + d == d;
  }

  lemma {:induction false} AddProper(d: Query, p: Pair)
    requires Proper(d) && p.1 != ""
    ensures Proper(Add(d, p))
    ensures forall name :: Lacks(Add(d, p), name) <==> Lacks(d, name) && name != p.0
  {
    if d != [] && d[0].0 != p.0 {
      AddProper(d[1..], p);
      assert Add(d, p)[1..] == Add(d[1..], p);
      LacksFirst(d[0], Add(d[1..], p));
      LacksFirst(d[0], d[1..]);
      assert d == [d[0]] + d[1..];
    } else if d != [] {
      var first := (p.0, d[0].1 + [p.1]);
      assert Add(d, p)[1..] == d[1..];
      LacksFirst(first, d[1..]);
      LacksFirst(d[0], d[1..]);
      assert d == [d[0]] + d[1..];
    }
  }

  lemma LacksFirst(e: (string, seq<string>), d: Query)
    ensures forall name :: Lacks([e] + d, name) <==> Lacks(d, name) && name != e.0
  {
    var all := [e] + d;
    forall name ensures Lacks(all, name) <==> Lacks(d, name) && name != e.0 {
      assert all[0] == e && forall i :: 0 <= i < |d| ==> all[i + 1] == d[i];
      if Lacks(all, name) {
        forall i | 0 <= i < |d| ensures d[i].0 != name {
          assert all[i + 1] == d[i];
        }
      }
    }
  }

  lemma {:induction false} GroupProper(d: Query, pairs: seq<Pair>)
    requires Proper(d) && forall i :: 0 <= i < |pairs| ==> pairs[i].1 != ""
    ensures Proper(GroupInto(d, pairs))
    decreases |pairs|
  {
    if pairs != [] {
      AddProper(d, pairs[0]);
      GroupProper(Add(d, pairs[0]), pairs[1..]);
    }
  }

  lemma {:induction false} NonBlankValues(pairs: seq<Pair>)
    ensures forall i :: 0 <= i < |NonBlank(pairs)| ==> NonBlank(pairs)[i].1 != ""
  {
    if pairs != [] {
      NonBlankValues(pairs[1..]);
    }
  }

  lemma ParsedProper(pairs: seq<Pair>)
    ensures Proper(Parsed(pairs))
  {
    NonBlankValues(pairs);
    GroupProper([], NonBlank(pairs));
  }

  lemma {:induction false} SetProper(d: Query, name: string, v: string)
    requires Proper(d) && v != ""
    ensures Proper(Set(d, name, [v]))
    ensures forall q :: Lacks(Set(d, name, [v]), q) <==> Lacks(d, q) && q != name
  {
    if d != [] {
      LacksFirst(d[0], d[1..]);
      assert d == [d[0]] + d[1..];
      if d[0].0 == name {
        assert Set(d, name, [v])[1..] == d[1..];
        LacksFirst((name, [v]), d[1..]);
      } else {
        SetProper(d[1..], name, v);
        assert Set(d, name, [v])[1..] == Set(d[1..], name, [v]);
        LacksFirst(d[0], Set(d[1..], name, [v]));
      }
    }
  }

  lemma {:induction false} SetTwice(d: Query, name: string, a: seq<string>, b: seq<string>)
    ensures Set(Set(d, name, a), name, b) == Set(d, name, b)
  {
    if d != [] && d[0].0 != name {
      SetTwice(d[1..], name, a, b);
      assert Set(d, name, a)[1..] == Set(d[1..], name, a);
    }
  }

  /** Encoding a second connection id replaces the first: nothing accumulates. The guard of the only
      caller keeps out an empty id. */
  lemma EncodeTwice(u: Url, a: string, b: string)
    requires a != ""
    ensures EncodeConnectionId(EncodeConnectionId(u, a), b) == EncodeConnectionId(u, b)
  {
    ParsedProper(u.query);
    SetProper(Parsed(u.query), "id", a);
    ParsedFlat(Set(Parsed(u.query), "id", [a]));
    SetTwice(Parsed(u.query), "id", [a], [b]);
  }

  /* ---------- what an encoded query holds ---------- */

  /** All values of a name, in order. */
  function ValuesOf(name: string, pairs: seq<Pair>): seq<string> {
    if pairs == [] then [] else (if pairs[0].0 == name then [pairs[0].1] else []) + ValuesOf(name, pairs[1..])
  }

  /** The names in order of their first occurrence. */
  function FirstNames(seen: seq<string>, pairs: seq<Pair>): seq<string>
    decreases |pairs|
  {
    if pairs == [] then seen
    else FirstNames(if pairs[0].0 in seen then seen else seen + [pairs[0].0], pairs[1..])
  }

  /** Name by name, the pairs with the given values. */
  function Arranged(names: seq<string>, pairs: seq<Pair>, id: string): seq<Pair> {
    if names == [] then []
    else PairsOf(names[0], if names[0] == "id" then [id] else ValuesOf(names[0], pairs)) + Arranged(names[1..], pairs, id)
  }

  function Names(d: Query): seq<string> {
    seq(|d|, i requires 0 <= i < |d| => d[i].0)
  }

  lemma NamesFirst(e: (string, seq<string>), d: Query)
    ensures Names([e] + d) == [e.0] + Names(d)
  {
  }

  lemma {:induction false} AddNames(d: Query, p: Pair)
    ensures Names(Add(d, p)) == if p.0 in Names(d) then Names(d) else Names(d) + [p.0]
  {
    if d != [] {
      assert Names(d) == [d[0].0] + Names(d[1..]);
      if d[0].0 != p.0 {
        AddNames(d[1..], p);
        assert Names(Add(d, p)) == [d[0].0] + Names(Add(d[1..], p));
      } else {
        assert Names(Add(d, p)) == [p.0] + Names(d[1..]);
      }
    }
  }

  lemma {:induction false} GroupNames(d: Query, pairs: seq<Pair>)
    ensures Names(GroupInto(d, pairs)) == FirstNames(Names(d), pairs)
    decreases |pairs|
  {
    if pairs != [] {
      AddNames(d, pairs[0]);
      GroupNames(Add(d, pairs[0]), pairs[1..]);
    }
  }

  lemma {:induction false} SetNames(d: Query, name: string, values: seq<string>)
    ensures Names(Set(d, name, values)) == if name in Names(d) then Names(d) else Names(d) + [name]
  {
    if d != [] {
      assert d == [d[0]] + d[1..];
      NamesFirst(d[0], d[1..]);
      if d[0].0 != name {
        SetNames(d[1..], name, values);
        NamesFirst(d[0], Set(d[1..], name, values));
      } else {
        NamesFirst((name, values), d[1..]);
      }
    }
  }

  /** The values a query gives a name. */
  function Lookup(d: Query, name: string): seq<string> {
    if d == [] then [] else if d[0].0 == name then d[0].1 else Lookup(d[1..], name)
  }

  lemma {:induction false} AddLookup(d: Query, p: Pair, name: string)
    ensures Lookup(Add(d, p), name) == Lookup(d, name) + if p.0 == name then [p.1] else []
  {
    if d == [] {
      assert [] + [p.1] == [p.1];
    } else {
      assert Lookup(d, name) + [] == Lookup(d, name);
      if d[0].0 != p.0 {
        AddLookup(d[1..], p, name);
        assert Add(d, p)[1..] == Add(d[1..], p);
      } else {
        assert Add(d, p)[1..] == d[1..];
      }
    }
  }

  lemma {:induction false} GroupLookup(d: Query, pairs: seq<Pair>, name: string)
    ensures Lookup(GroupInto(d, pairs), name) == Lookup(d, name) + ValuesOf(name, pairs)
    decreases |pairs|
  {
    if pairs == [] {
      assert Lookup(d, name) + [] == Lookup(d, name);
    } else {
      AddLookup(d, pairs[0], name);
      GroupLookup(Add(d, pairs[0]), pairs[1..], name);
      var first := if pairs[0].0 == name then [pairs[0].1] else [];
      Regroup(Lookup(d, name), first, ValuesOf(name, pairs[1..]));
    }
  }

  lemma {:induction false} SetLookup(d: Query, name: string, values: seq<string>, q: string)
    ensures Lookup(Set(d, name, values), q) == if q == name then values else Lookup(d, q)
  {
    if d != [] {
      if d[0].0 != name {
        SetLookup(d[1..], name, values, q);
        assert Set(d, name, values)[1..] == Set(d[1..], name, values);
      } else {
        assert Set(d, name, values)[1..] == d[1..];
      }
    }
  }

  lemma {:induction false} FlatArranged(d: Query, pairs: seq<Pair>, id: string)
    requires Proper(d)
    requires forall i :: 0 <= i < |d| ==>
               Lookup(d, d[i].0) == if d[i].0 == "id" then [id] else ValuesOf(d[i].0, pairs)
    ensures Flat(d) == Arranged(Names(d), pairs, id)
  {
    if d != [] {
      var tail := d[1..];
      assert Names(d)[1..] == Names(tail);
      forall i | 0 <= i < |tail|
        ensures Lookup(tail, tail[i].0) == if tail[i].0 == "id" then [id] else ValuesOf(tail[i].0, pairs)
      {
        assert tail[i] == d[i + 1] && tail[i].0 != d[0].0;
        assert Lookup(d, tail[i].0) == Lookup(tail, tail[i].0);
      }
      assert Names(d)[0] == d[0].0 && Lookup(d, d[0].0) == d[0].1;
      FlatArranged(tail, pairs, id);
    }
  }

  lemma EncodedNames(u: Url, id: string)
    requires id != ""
    ensures var e, names := Set(Parsed(u.query), "id", [id]), FirstNames([], NonBlank(u.query));
            Proper(e) && Names(e) == if "id" in names then names else names + ["id"]
  {
    var d := Parsed(u.query);
    ParsedProper(u.query);
    SetProper(d, "id", id);
    GroupNames([], NonBlank(u.query));
    assert Names([]) == [];
    SetNames(d, "id", [id]);
  }

  lemma EncodedLookup(u: Url, id: string, name: string)
    ensures Lookup(Set(Parsed(u.query), "id", [id]), name) ==
              if name == "id" then [id] else ValuesOf(name, NonBlank(u.query))
  {
    SetLookup(Parsed(u.query), "id", [id], name);
    GroupLookup([], NonBlank(u.query), name);
    assert [] + ValuesOf(name, NonBlank(u.query)) == ValuesOf(name, NonBlank(u.query));
  }

  /** The encoded query: the id in the place of the old one or last, every other non-blank parameter
      grouped by name in order of first occurrence. */
  lemma EncodedQuery(u: Url, id: string)
    requires id != ""
    ensures var kept := NonBlank(u.query);
            var names := FirstNames([], kept);
            EncodeConnectionId(u, id).query == Arranged(if "id" in names then names else names + ["id"], kept, id)
  {
    EncodedNames(u, id);
    var e := Set(Parsed(u.query), "id", [id]);
    forall i: nat | i < |e|
      ensures Lookup(e, e[i].0) == if e[i].0 == "id" then [id] else ValuesOf(e[i].0, NonBlank(u.query))
    {
      EncodedLookup(u, id, e[i].0);
    }
    FlatArranged(e, NonBlank(u.query), id);
  }

  /** The rest of an encoded URL: a websocket scheme, and the same place. */
  lemma EncodedPlace(u: Url, id: string)
    ensures var e := EncodeConnectionId(u, id);
            && e.scheme == (match u.scheme case "http" => "ws" case "https" => "wss" case other => other)
            && e.netloc == u.netloc && e.path == u.path && e.fragment == u.fragment
  {
  }

  /** There is exactly one id, and every other name keeps exactly its non-blank values. */
  lemma EncodedValues(u: Url, id: string, name: string)
    requires id != ""
    ensures ValuesOf(name, EncodeConnectionId(u, id).query) ==
              if name == "id" then [id] else ValuesOf(name, NonBlank(u.query))
  {
    EncodedNames(u, id);
    EncodedLookup(u, id, name);
    FlatLookup(Set(Parsed(u.query), "id", [id]), name);
  }

  lemma {:induction false} ValuesConcat(name: string, a: seq<Pair>, b: seq<Pair>)
    ensures ValuesOf(name, a + b) == ValuesOf(name, a) + ValuesOf(name, b)
  {
    if a == [] {
      assert a + b == b;
    } else {
      assert (a + b)[1..] == a[1..] + b;
      ValuesConcat(name, a[1..], b);
    }
  }

  lemma {:induction false} ValuesOfPairs(name: string, q: string, values: seq<string>)
    ensures ValuesOf(q, PairsOf(name, values)) == if q == name then values else []
  {
    if values != [] {
      assert PairsOf(name, values)[1..] == PairsOf(name, values[1..]);
      ValuesOfPairs(name, q, values[1..]);
    }
  }

  lemma {:induction false} FlatLookup(d: Query, name: string)
    requires Proper(d)
    ensures ValuesOf(name, Flat(d)) == Lookup(d, name)
    ensures Lacks(d, name) ==> Lookup(d, name) == []
  {
    if d != [] {
      FlatLookup(d[1..], name);
      ValuesConcat(name, PairsOf(d[0].0, d[0].1), Flat(d[1..]));
      ValuesOfPairs(d[0].0, name, d[0].1);
      assert d[0].1 + [] == d[0].1;
      assert [] + Lookup(d[1..], name) == Lookup(d[1..], name);
    }
  }

  /* ---------- negotiating again and again ---------- */

  /** The answer of the negotiation endpoint; absent entries are empty. */
  datatype Response = Response(status: int, connectionId: string, redirect: Option<Url>, accessToken: string)

  predicate Redirects(r: Response) {
    r.status == 200 && r.connectionId == "" && r.redirect.Some? && r.accessToken != ""
  }

  predicate Identifies(r: Response) {
    r.status == 200 && r.connectionId != ""
  }

  /** The transport's URL after an answer. */
  function Negotiated(u: Url, r: Response): Url {
    if Identifies(r) then EncodeConnectionId(u, r.connectionId)
    else if Redirects(r) then ReplaceScheme(r.redirect.value, true)
    else u
  }

  class Negotiator {
    var url: Url
    var authorization: string

    constructor (url: Url)
      ensures this.url == url
    {
      this.url := url;
      authorization := "";
    }

    /** `negotiate`, behind the request: a failure status raises and changes nothing. */
    method Negotiate(r: Response) returns (ok: bool)
      modifies this
      ensures ok <==> r.status == 200
      ensures url == Negotiated(old(url), r)
      ensures authorization == if Redirects(r) then "Bearer " + r.accessToken else old(authorization)
    {
      if r.status != 200 {
        return false;
      }
      if r.connectionId != "" {
        url := EncodeConnectionId(url, r.connectionId);
      } else if r.redirect.Some? && r.accessToken != "" {
        url := ReplaceScheme(r.redirect.value, true);
        authorization := "Bearer " + r.accessToken;
      }
      ok := true;
    }
  }

  function NegotiatedAll(u: Url, rs: seq<Response>): Url
    decreases |rs|
  {
    if rs == [] then u else NegotiatedAll(Negotiated(u, rs[0]), rs[1..])
  }

  /** Where the URL comes from: the last redirect or the original URL, and the last id received since. */
  function Source(base: Url, id: string, rs: seq<Response>): (Url, string)
    decreases |rs|
  {
    if rs == [] then (base, id)
    else if Identifies(rs[0]) then Source(base, rs[0].connectionId, rs[1..])
    else if Redirects(rs[0]) then Source(ReplaceScheme(rs[0].redirect.value, true), "", rs[1..])
    else Source(base, id, rs[1..])
  }

  function WithId(base: Url, id: string): Url {
    if id == "" then base else EncodeConnectionId(base, id)
  }

  /** However often the connection is negotiated, the URL is the last redirect (or the original) with
      just the last connection id. */
  lemma {:induction false} NegotiationDoesNotAccumulate(base: Url, id: string, rs: seq<Response>)
    ensures NegotiatedAll(WithId(base, id), rs) ==
              WithId(Source(base, id, rs).0, Source(base, id, rs).1)
    decreases |rs|
  {
    if rs != [] {
      if Identifies(rs[0]) {
        if id != "" {
          EncodeTwice(base, id, rs[0].connectionId);
        }
        NegotiationDoesNotAccumulate(base, rs[0].connectionId, rs[1..]);
      } else if Redirects(rs[0]) {
        NegotiationDoesNotAccumulate(ReplaceScheme(rs[0].redirect.value, true), "", rs[1..]);
      } else {
        NegotiationDoesNotAccumulate(base, id, rs[1..]);
      }
    }
  }

  /** One answer: a failure or an answer without an id and a complete redirect changes nothing, an id
      replaces the one in the query, and a redirect with a token replaces the URL. */
  lemma NegotiatedOnce(u: Url, r: Response)
    ensures var n := Negotiated(u, r);
            if r.status == 200 && r.connectionId != "" then
              n.netloc == u.netloc && n.path == u.path && n.fragment == u.fragment
              && ValuesOf("id", n.query) == [r.connectionId]
              && n.scheme == (match u.scheme case "http" => "ws" case "https" => "wss" case other => other)
            else if r.status == 200 && r.redirect.Some? && r.accessToken != "" then
              var v := r.redirect.value;
              n == v.(scheme := match v.scheme case "http" => "ws" case "https" => "wss" case other => other)
            else n == u
  {
    if r.status == 200 && r.connectionId != "" {
      EncodedValues(u, r.connectionId, "id");
    }
  }

  predicate Web(u: Url) {
    u.scheme == "http" || u.scheme == "https" || u.scheme == "ws" || u.scheme == "wss"
  }

  predicate Secure(u: Url) {
    u.scheme == "https" || u.scheme == "wss"
  }

  /** The answer brings an id, or a redirect with its token. */
  predicate Useful(r: Response) {
    r.status == 200 && (r.connectionId != "" || (r.redirect.Some? && r.accessToken != ""))
  }

  /** Negotiating makes any web address a websocket address, and nothing else does; without a redirect it
      stays as secure as it was. */
  lemma {:induction false} NegotiatedScheme(u: Url, rs: seq<Response>)
    requires Web(u) && forall i :: 0 <= i < |rs| && rs[i].redirect.Some? ==> Web(rs[i].redirect.value)
    ensures var n := NegotiatedAll(u, rs);
            && Web(n)
            && (if exists i :: 0 <= i < |rs| && Useful(rs[i]) then n.scheme == "ws" || n.scheme == "wss" else n == u)
            && ((forall i :: 0 <= i < |rs| ==> rs[i].redirect.None?) ==> (Secure(n) <==> Secure(u)))
            && (u.scheme == "ws" || u.scheme == "wss" ==> n.scheme == "ws" || n.scheme == "wss")
    decreases |rs|
  {
    if rs != [] {
      var t := Negotiated(u, rs[0]);
      NegotiatedOnce(u, rs[0]);
      assert forall i :: 0 <= i < |rs[1..]| ==> rs[1..][i] == rs[i + 1];
      NegotiatedScheme(t, rs[1..]);
      if i :| 0 <= i < |rs| && Useful(rs[i]) {
        assert i == 0 || Useful(rs[1..][i - 1]);
      }
    }
  }
}

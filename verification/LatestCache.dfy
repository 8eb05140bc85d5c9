/** The versioned page cache of the latest feed (feed/cache.go LatestCache). */
module LatestCache {
  import opened Wrappers
  import opened GoText

  datatype Request = Request(limit: int, latestTime: int, lastId: nat)

  // ---------------------------------------------------------------- keys

  // %d
  function Number(n: int): (s: string)
    ensures ':' !in s
  {
    if n < 0 then "-" + Decimal(-n) else Decimal(n)
  }

  function Key(version: int, req: Request): string {
    "feed:listLatest:v=" + (Number(version) + (":limit=" + (Number(req.limit) + (":latest=" + (Number(req.latestTime)
      + (":last_id=" + Number(req.lastId)))))))
  }

  lemma NumberIsInjective(a: int, b: int)
    requires Number(a) == Number(b)
    ensures a == b
  {
    DigitsValueOfDecimal(if a < 0 then -a else a);
    DigitsValueOfDecimal(if b < 0 then -b else b);
    assert a < 0 ==> Number(a)[0] == '-' && Number(a)[1..] == Decimal(-a);
    assert b < 0 ==> Number(b)[0] == '-' && Number(b)[1..] == Decimal(-b);
  }

  lemma SamePrefix(p: string, a: string, b: string)
    requires p + a == p + b
    ensures a == b
  {
    assert a == (p + a)[|p|..] && b == (p + b)[|p|..];
  }

  // A text without a colon ends where the colon stands.
  lemma SplitAtColon(a: string, x: string, b: string, y: string)
    requires ':' !in a && ':' !in b && x != "" && y != "" && x[0] == ':' && y[0] == ':'
    requires a + x == b + y
    ensures a == b && x == y
  {
    assert (a + x)[|a|] == ':' && (b + y)[|b|] == ':';
    assert forall i :: 0 <= i < |a| ==> (a + x)[i] == a[i] && a[i] != ':';
    assert forall i :: 0 <= i < |b| ==> (b + y)[i] == b[i] && b[i] != ':';
    assert |a| == |b|;
    assert a == (a + x)[..|a|] && b == (b + y)[..|b|];
    assert x == (a + x)[|a|..] && y == (b + y)[|b|..];
  }

  lemma NumberField(label1: string, m: int, x: string, n: int, y: string)
    requires x != "" && y != "" && x[0] == ':' && y[0] == ':'
    requires label1 + (Number(m) + x) == label1 + (Number(n) + y)
    ensures m == n && x == y
  {
    SamePrefix(label1, Number(m) + x, Number(n) + y);
    SplitAtColon(Number(m), x, Number(n), y);
    NumberIsInjective(m, n);
  }

  function LimitPart(r: Request): string {
    ":limit=" + (Number(r.limit) + LatestPart(r))
  }

  function LatestPart(r: Request): string {
    ":latest=" + (Number(r.latestTime) + (":last_id=" + Number(r.lastId)))
  }

  // No two pages share a key: neither other requests nor other versions of the same request.
  lemma KeysNeverCollide(v: int, req: Request, v': int, req': Request)
    ensures Key(v, req) == Key(v', req') <==> v == v' && req == req'
  {
    if Key(v, req) == Key(v', req') {
      NumberField("feed:listLatest:v=", v, LimitPart(req), v', LimitPart(req'));
      NumberField(":limit=", req.limit, LatestPart(req), req'.limit, LatestPart(req'));
      NumberField(":latest=", req.latestTime, ":last_id=" + Number(req.lastId),
                  req'.latestTime, ":last_id=" + Number(req'.lastId));
      SamePrefix(":last_id=", Number(req.lastId), Number(req'.lastId));
      NumberIsInjective(req.lastId, req'.lastId);
    }
  }

  // ---------------------------------------------------------------- what was stored

  // A page that was stored, or with None one that expired.
  datatype Write<T> = Write(version: int, req: Request, page: Option<T>)

  // The last word on this version and request.
  function LastWrite<T>(writes: seq<Write<T>>, v: int, req: Request): Option<T> {
    if writes == [] then None
    else
      var w := writes[|writes| - 1];
      if w.version == v && w.req == req then w.page else LastWrite(writes[..|writes| - 1], v, req)
  }

  function Lookup<T>(pages: map<string, T>, v: int, req: Request): Option<T> {
    if Key(v, req) in pages then Some(pages[Key(v, req)]) else None
  }

  function Perform<T>(pages: map<string, T>, w: Write<T>): map<string, T> {
    match w.page
    case Some(page) => pages[Key(w.version, w.req) := page]
    case None => pages - {Key(w.version, w.req)}
  }

  // The keys hold the last write of every version and request.
  ghost predicate Holds<T>(pages: map<string, T>, writes: seq<Write<T>>) {
    forall v, req :: Lookup(pages, v, req) == LastWrite(writes, v, req)
  }

  // A write shows under its own version and request and under no other.
  lemma WriteShows<T>(pages: map<string, T>, w: Write<T>, v: int, req: Request)
    ensures Lookup(Perform(pages, w), v, req) == if (v, req) == (w.version, w.req) then w.page else Lookup(pages, v, req)
  {
    KeysNeverCollide(v, req, w.version, w.req);
  }

  lemma WriteHolds<T>(pages: map<string, T>, writes: seq<Write<T>>, w: Write<T>)
    requires Holds(pages, writes)
    ensures Holds(Perform(pages, w), writes + [w])
  {
    assert (writes + [w])[..|writes|] == writes;
    forall v, req ensures Lookup(Perform(pages, w), v, req) == LastWrite(writes + [w], v, req) {
      WriteShows(pages, w, v, req);
      assert Lookup(pages, v, req) == LastWrite(writes, v, req);
    }
  }

  // ---------------------------------------------------------------- the cache

  class Cache<T> {
    var version: Option<int>
    var pages: map<string, T>
    ghost var writes: seq<Write<T>>

    constructor ()
      ensures version == None && writes == [] && Valid()
    {
      version := None;
      pages := map[];
      writes := [];
    }

    ghost predicate Valid()
      reads this
    {
      Holds(pages, writes)
    }

    // SETNX latestFeedVersionKey 1
    method SetVersionNX()
      modifies this`version
      ensures version == if old(version).None? then Some(1) else old(version)
    {
      if version.None? {
        version := Some(1);
      }
    }

    method GetVersion() returns (v: int)
      modifies this`version
      ensures version == if old(version).None? then Some(1) else old(version)
      ensures v >= 1 && (version.value >= 1 ==> v == version.value)
    {
      SetVersionNX();
      v := version.value;
      if v <= 0 {
        v := 1;
      }
    }

    // Every bump returns a version no page was ever stored under by a reader that read the version before.
    method BumpVersion() returns (v: int)
      modifies this`version
      ensures version == Some(v) && v == (if old(version).None? then 1 else old(version).value) + 1
    {
      SetVersionNX();
      v := version.value + 1;
      version := Some(v);
    }

    // Whatever else was stored since: the page last stored under exactly this version and request, unless it expired.
    method Get(v: int, req: Request) returns (page: Option<T>)
      requires Valid()
      ensures page == LastWrite(writes, v, req)
    {
      page := if Key(v, req) in pages then Some(pages[Key(v, req)]) else None;
      assert page == Lookup(pages, v, req);
    }

    method Set(v: int, req: Request, page: T)
      requires Valid()
      modifies this`pages, this`writes
      ensures Valid() && writes == old(writes) + [Write(v, req, Some(page))]
    {
      WriteHolds(pages, writes, Write(v, req, Some(page)));
      pages := pages[Key(v, req) := page];
      writes := writes + [Write(v, req, Some(page))];
    }

    // The time to live of one page runs out.
    method Expire(v: int, req: Request)
      requires Valid()
      modifies this`pages, this`writes
      ensures Valid() && writes == old(writes) + [Write(v, req, None)]
    {
      WriteHolds(pages, writes, Write(v, req, None));
      pages := pages - {Key(v, req)};
      writes := writes + [Write(v, req, None)];
    }
  }
}

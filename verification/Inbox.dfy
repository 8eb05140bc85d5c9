/**
 Following inboxes (feed/fanout_store.go InboxStore): one bounded Redis sorted set per user, ordered by score and,
 among equal scores, by the member's decimal text compared byte by byte, as Redis orders members.
*/
module Inbox {
  import opened Batches
  import opened GoText
  import opened TopN

  datatype Entry = Entry(id: nat, score: int)

  // ---------------------------------------------------------------- the order of a sorted set

  // memcmp, a proper prefix first.
  predicate LexLess(a: string, b: string) {
    b != "" && (a == "" || a[0] < b[0] || (a[0] == b[0] && LexLess(a[1..], b[1..])))
  }

  lemma {:induction false} LexIrreflexive(a: string)
    ensures !LexLess(a, a)
  {
    if a != "" {
      LexIrreflexive(a[1..]);
    }
  }

  lemma {:induction false} LexTotal(a: string, b: string)
    ensures LexLess(a, b) || LexLess(b, a) || a == b
  {
    if a != "" && b != "" {
      LexTotal(a[1..], b[1..]);
      assert a == [a[0]] + a[1..] && b == [b[0]] + b[1..];
    }
  }

  lemma {:induction false} LexTransitive(a: string, b: string, c: string)
    requires LexLess(a, b) && LexLess(b, c)
    ensures LexLess(a, c)
  {
    if a != "" && a[0] == b[0] == c[0] {
      LexTransitive(a[1..], b[1..], c[1..]);
    }
  }

  predicate Above(x: Entry, y: Entry) {
    x.score > y.score || (x.score == y.score && LexLess(Decimal(y.id), Decimal(x.id)))
  }

  lemma AboveIsStrictTotal()
    ensures StrictTotal(Above)
  {
    forall x: Entry ensures !Above(x, x) {
      LexIrreflexive(Decimal(x.id));
    }
    forall x: Entry, y: Entry | x != y ensures Above(x, y) || Above(y, x) {
      LexTotal(Decimal(x.id), Decimal(y.id));
      DigitsValueOfDecimal(x.id);
      DigitsValueOfDecimal(y.id);
    }
    forall x: Entry, y: Entry, z: Entry | Above(x, y) && Above(y, z) ensures Above(x, z) {
      if x.score == z.score {
        LexTransitive(Decimal(z.id), Decimal(y.id), Decimal(x.id));
      }
    }
  }

  // The order of the videos table, ORDER BY created_at DESC, id DESC; it breaks ties the other way round.
  predicate Newer(x: Entry, y: Entry) {
    x.score > y.score || (x.score == y.score && x.id > y.id)
  }

  lemma NewerIsStrictTotal()
    ensures StrictTotal(Newer)
  {}

  // ---------------------------------------------------------------- ZADD and ZREMRANGEBYRANK

  function ZAdd(z: set<Entry>, e: Entry): set<Entry> {
    (set x | x in z && x.id != e.id) + {e}
  }

  function ZAddAll(z: set<Entry>, entries: seq<Entry>): set<Entry> {
    if entries == [] then z else ZAdd(ZAddAll(z, entries[..|entries| - 1]), entries[|entries| - 1])
  }

  // Keep the maxSize highest ranks.
  function KeepNewest(z: set<Entry>, maxSize: nat): set<Entry> {
    Top(z, Above, maxSize)
  }

  function Flagged(users: seq<nat>, active: set<nat>): (r: seq<nat>)
    ensures forall u :: u in r <==> u in users && u in active
  {
    if users == [] then []
    else
      var r := Flagged(users[..|users| - 1], active);
      assert users == users[..|users| - 1] + [users[|users| - 1]];
      if users[|users| - 1] in active then r + [users[|users| - 1]] else r
  }

  lemma {:induction false} FlaggedKeepOrder(users: seq<nat>, active: set<nat>)
    requires Ascending(users)
    ensures Ascending(Flagged(users, active))
  {
    if users != [] {
      var front, last := users[..|users| - 1], users[|users| - 1];
      var r := Flagged(front, active);
      FlaggedKeepOrder(front, active);
      forall i | 0 <= i < |r| ensures r[i] < last {
        assert r[i] in front;
        var k :| 0 <= k < |front| && front[k] == r[i];
        assert users[k] < last;
      }
    }
  }

  function Valid(entries: seq<Entry>): seq<Entry> {
    if entries == [] then []
    else
      var r := Valid(entries[..|entries| - 1]);
      if entries[|entries| - 1].id == 0 then r else r + [entries[|entries| - 1]]
  }

  lemma {:induction false} ValidAre(entries: seq<Entry>)
    ensures SetOf(Valid(entries)) == set e | e in entries && e.id != 0
  {
    if entries != [] {
      var front := entries[..|entries| - 1];
      ValidAre(front);
      assert entries == front + [entries[|entries| - 1]];
      assert forall e :: e in Valid(front) <==> e in SetOf(Valid(front));
    }
  }

  lemma {:induction false} AllValid(entries: seq<Entry>)
    requires forall e :: e in entries ==> e.id != 0
    ensures Valid(entries) == entries
  {
    if entries != [] {
      AllValid(entries[..|entries| - 1]);
    }
  }

  // ---------------------------------------------------------------- one score per video

  ghost predicate OneScore(z: set<Entry>) {
    forall x, y :: x in z && y in z && x.id == y.id ==> x == y
  }

  lemma ZAddIsUnion(z: set<Entry>, e: Entry)
    requires OneScore(z + {e})
    ensures ZAdd(z, e) == z + {e}
  {}

  lemma {:induction false} ZAddAllIsUnion(z: set<Entry>, entries: seq<Entry>)
    requires OneScore(z + SetOf(entries))
    ensures ZAddAll(z, entries) == z + SetOf(entries)
  {
    if entries != [] {
      var front, last := entries[..|entries| - 1], entries[|entries| - 1];
      assert SetOf(entries) == SetOf(front) + {last};
      ZAddAllIsUnion(z, front);
      ZAddIsUnion(z + SetOf(front), last);
    }
  }

  // A history of writes: each a batch of entries added and then trimmed.
  ghost function Written(z: set<Entry>, writes: seq<seq<Entry>>, maxSize: nat): set<Entry> {
    if writes == [] then z
    else KeepNewest(ZAddAll(Written(z, writes[..|writes| - 1], maxSize), writes[|writes| - 1]), maxSize)
  }

  ghost function Mentioned(writes: seq<seq<Entry>>): set<Entry> {
    if writes == [] then {} else Mentioned(writes[..|writes| - 1]) + SetOf(writes[|writes| - 1])
  }

  // Whatever the order, repetition or grouping of the writes, the inbox is the maxSize newest of all of them.
  lemma {:induction false} InboxIsNewestOfAll(writes: seq<seq<Entry>>, maxSize: nat)
    requires OneScore(Mentioned(writes))
    ensures Written({}, writes, maxSize) == KeepNewest(Mentioned(writes), maxSize)
  {
    if writes == [] {
      assert KeepNewest({}, maxSize) == {};
    } else {
      var front, last := writes[..|writes| - 1], writes[|writes| - 1];
      InboxIsNewestOfAll(front, maxSize);
      var a, b := Mentioned(front), SetOf(last);
      assert KeepNewest(a, maxSize) <= a;
      ZAddAllIsUnion(KeepNewest(a, maxSize), last);
      AboveIsStrictTotal();
      TopOfUnion(a, b, Above, maxSize);
    }
  }

  // Two histories that mention the same entries leave the same inbox.
  lemma SameEntriesSameInbox(w1: seq<seq<Entry>>, w2: seq<seq<Entry>>, maxSize: nat)
    requires OneScore(Mentioned(w1)) && Mentioned(w1) == Mentioned(w2)
    ensures Written({}, w1, maxSize) == Written({}, w2, maxSize)
  {
    InboxIsNewestOfAll(w1, maxSize);
    InboxIsNewestOfAll(w2, maxSize);
  }

  // The hypothesis is needed: a video written with two scores ends with whichever came last.
  lemma TwoScoresDependOnOrder()
    ensures exists w1, w2 :: Mentioned(w1) == Mentioned(w2) && Written({}, w1, 1) != Written({}, w2, 1)
  {
    var a, b := Entry(1, 10), Entry(1, 20);
    LastScoreWins(a, b);
    LastScoreWins(b, a);
    assert Mentioned([[a], [b]]) == Mentioned([[b], [a]]);
    assert a in {a} && a !in {b};
  }

  lemma LastScoreWins(x: Entry, y: Entry)
    requires x.id == y.id
    ensures Mentioned([[x], [y]]) == {x, y}
    ensures Written({}, [[x], [y]], 1) == {y}
  {
    var w := [[x], [y]];
    var v := w[..1];
    assert v == [[x]] && v[..0] == [];
    AboveIsStrictTotal();
    OneEntry({}, x);
    TopIsFixed({x}, Above, 1);
    assert Written({}, v[..0], 1) == {} && Mentioned(v[..0]) == {};
    assert ZAdd({}, x) == {x} && Written({}, v, 1) == {x};
    OneEntry({x}, y);
    assert ZAdd({x}, y) == {y};
    TopIsFixed({y}, Above, 1);
  }

  lemma OneEntry(z: set<Entry>, e: Entry)
    ensures ZAddAll(z, [e]) == ZAdd(z, e) && SetOf([e]) == {e}
  {
    var s := [e];
    assert s[..0] == [];
  }

  // ---------------------------------------------------------------- the store

  class InboxStore {
    const maxSize: nat
    var zsets: map<nat, set<Entry>>
    var active: set<nat>

    constructor (maxSize: int)
      ensures this.maxSize == (if maxSize <= 0 then 1000 else maxSize) && zsets == map[] && active == {}
    {
      this.maxSize := if maxSize <= 0 then DEFAULT_MAX_SIZE else maxSize;
      zsets := map[];
      active := {};
    }

    function Inbox(user: nat): set<Entry>
      reads this
    {
      if user in zsets then zsets[user] else {}
    }

    method MarkActive(user: nat)
      modifies this`active
      ensures active == old(active) + (if user == 0 then {} else {user})
    {
      if user != 0 {
        active := active + {user};
      }
    }

    method ClearActive(user: nat)
      modifies this`active
      ensures active == old(active) - (if user == 0 then {} else {user})
    {
      if user != 0 {
        active := active - {user};
      }
    }

    // The candidates whose flag is set, in their order.
    method FilterActive(users: seq<nat>) returns (targets: seq<nat>)
      ensures targets == Flagged(users, active)
      ensures Ascending(users) ==> Ascending(targets)
    {
      if Ascending(users) {
        FlaggedKeepOrder(users, active);
      }
      targets := [];
      for i := 0 to |users|
        invariant targets == Flagged(users[..i], active)
      {
        assert users[..i + 1][..i] == users[..i];
        if users[i] in active {
          targets := targets + [users[i]];
        }
      }
      assert users[..|users|] == users;
    }

    // One video into many inboxes; listing a user twice changes nothing.
    method Push(users: seq<nat>, videoId: nat, createdAt: int)
      modifies this`zsets
      ensures forall u :: Inbox(u) == (
                if videoId != 0 && u != 0 && u in users
                then KeepNewest(ZAdd(old(Inbox(u)), Entry(videoId, createdAt)), maxSize)
                else old(Inbox(u)))
    {
      if |users| == 0 || videoId == 0 {
        return;
      }
      var item := Entry(videoId, createdAt);
      for i := 0 to |users|
        invariant forall u :: Inbox(u) == (
                    if u != 0 && u in users[..i] then KeepNewest(ZAdd(old(Inbox(u)), item), maxSize)
                    else old(Inbox(u)))
      {
        var u := users[i];
        if u != 0 {
          PushTwice(old(Inbox(u)), item, maxSize);
          zsets := zsets[u := KeepNewest(ZAdd(Inbox(u), item), maxSize)];
        }
        assert users[..i + 1] == users[..i] + [u];
      }
      assert users[..|users|] == users;
    }

    // Many videos into one inbox, without deleting what is there.
    method Fill(user: nat, entries: seq<Entry>)
      modifies this`zsets
      ensures forall u :: u != user ==> Inbox(u) == old(Inbox(u))
      ensures Inbox(user) == if user == 0 || Valid(entries) == [] then old(Inbox(user))
                             else KeepNewest(ZAddAll(old(Inbox(user)), Valid(entries)), maxSize)
      ensures user != 0 ==> NewestOf(Inbox(user), old(Inbox(user)), entries, maxSize)
    {
      FilledIsNewest(Inbox(user), entries, maxSize);
      if user == 0 || |entries| == 0 {
        return;
      }
      var items := [];
      for i := 0 to |entries|
        invariant items == Valid(entries[..i])
      {
        assert entries[..i + 1][..i] == entries[..i];
        if entries[i].id != 0 {
          items := items + [entries[i]];
        }
      }
      assert entries[..|entries|] == entries;
      if |items| == 0 {
        return;
      }
      zsets := zsets[user := KeepNewest(ZAddAll(Inbox(user), items), maxSize)];
    }

    // rebuildInbox: the flag goes up before the rows are read, so `rows` is what the query returns while fan-outs
    // already see the user as active. Each of the three calls may fail and end the rebuild.
    method Rebuild(user: nat, rows: seq<Entry>, marked: bool, read: bool, filled: bool) returns (ok: bool)
      modifies this
      ensures ok <==> marked && read && filled
      ensures active == old(active) + if marked && user != 0 then {user} else {}
      ensures forall u :: u != user || !ok || user == 0 ==> Inbox(u) == old(Inbox(u))
      ensures ok && user != 0 ==> Inbox(user) == Refilled(old(Inbox(user)), rows, maxSize)
      ensures ok && user != 0 ==> NewestOf(Inbox(user), old(Inbox(user)), rows, maxSize)
    {
      if !marked {
        return false;
      }
      MarkActive(user);
      if !read || !filled {
        return false;
      }
      Fill(user, rows);
      return true;
    }
  }

  // The inbox after a rebuild from these rows.
  function Refilled(z: set<Entry>, rows: seq<Entry>, maxSize: nat): set<Entry> {
    if Valid(rows) == [] then z else KeepNewest(ZAddAll(z, Valid(rows)), maxSize)
  }

  // What filling an inbox is for: as long as every video has one score and the inbox is not over its capacity, `box` is
  // the newest of what was there and of the listed entries that name a video.
  ghost predicate NewestOf(box: set<Entry>, before: set<Entry>, entries: seq<Entry>, maxSize: nat) {
    var all := before + (set e | e in entries && e.id != 0);
    OneScore(all) && |before| <= maxSize ==> box == KeepNewest(all, maxSize)
  }

  lemma FilledIsNewest(z: set<Entry>, rows: seq<Entry>, maxSize: nat)
    ensures NewestOf(Refilled(z, rows, maxSize), z, rows, maxSize)
  {
    if OneScore(z + (set e | e in rows && e.id != 0)) && |z| <= maxSize {
      RefilledIsNewest(z, rows, maxSize);
    }
  }

  // With one score per video, an inbox that is not over its capacity becomes the newest of what it held and of the rows
  // that name a video.
  lemma RefilledIsNewest(z: set<Entry>, rows: seq<Entry>, maxSize: nat)
    requires OneScore(z + (set e | e in rows && e.id != 0)) && |z| <= maxSize
    ensures Refilled(z, rows, maxSize) == KeepNewest(z + (set e | e in rows && e.id != 0), maxSize)
  {
    ValidAre(rows);
    ZAddAllIsUnion(z, Valid(rows));
    if Valid(rows) == [] {
      AboveIsStrictTotal();
      TopIsFixed(z, Above, maxSize);
      assert z + SetOf(Valid(rows)) == z;
    }
  }

  const DEFAULT_MAX_SIZE := 1000

  lemma PushTwice(z: set<Entry>, e: Entry, maxSize: nat)
    ensures KeepNewest(ZAdd(KeepNewest(ZAdd(z, e), maxSize), e), maxSize) == KeepNewest(ZAdd(z, e), maxSize)
  {
    var s := ZAdd(z, e);
    AboveIsStrictTotal();
    assert ZAdd(KeepNewest(s, maxSize), e) == KeepNewest(s, maxSize) + {e};
    TopOfUnion(s, {e}, Above, maxSize);
    assert s + {e} == s;
  }
}

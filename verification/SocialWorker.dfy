/**
 Follows and unfollows as the worker applies them (worker/social_worker.go): the relation row and the author's
 follower count move in one transaction, a repeated event moves nothing, and the follower's feed is reset every time.
*/
module SocialWorker {
  import opened Wrappers

  datatype PayloadError = InvalidPayload

  // The author's notice about one follower; a repeated follow makes it visible, unread and new again.
  datatype Notice = Notice(createdAt: int, updatedAt: int, hidden: bool, read: bool)

  // Nobody is told about following himself.
  function Notified(notices: map<(nat, nat), Notice>, author: nat, follower: nat, now: int): map<(nat, nat), Notice> {
    if follower == author then notices
    else if (author, follower) in notices
    then notices[(author, follower) := Notice(notices[(author, follower)].createdAt, now, false, false)]
    else notices[(author, follower) := Notice(now, now, false, false)]
  }

  // Following somebody else leaves the author an unread, visible notice of now about this follower, as old as the first
  // one; nobody else's notices change, and nobody is told about himself.
  lemma NoticeMoves(notices: map<(nat, nat), Notice>, author: nat, follower: nat, now: int)
    ensures var after := Notified(notices, author, follower, now);
            && (forall who: nat, about: nat :: (who, about) != (author, follower) ==>
                  ((who, about) in after <==> (who, about) in notices)
                  && ((who, about) in notices ==> after[(who, about)] == notices[(who, about)]))
            && (follower == author ==> after == notices)
            && (follower != author ==>
                  && (author, follower) in after
                  && var n := after[(author, follower)];
                     && !n.hidden && !n.read && n.updatedAt == now
                     && n.createdAt == if (author, follower) in notices then notices[(author, follower)].createdAt else now)
  {}

  function FollowersOf(relations: set<(nat, nat)>, author: nat): set<nat> {
    set p | p in relations && p.1 == author :: p.0
  }

  class Worker {
    var processed: set<nat>
    var relations: set<(nat, nat)>
    var followerCount: map<nat, int>
    var notices: map<(nat, nat), Notice>
    var following: set<nat>
    var active: set<nat>

    // Every account's count is the number of its relation rows.
    ghost predicate Valid()
      reads this
    {
      forall a :: a in followerCount ==> followerCount[a] == |FollowersOf(relations, a)|
    }

    constructor (accounts: set<nat>)
      ensures Valid() && processed == {} && relations == {} && followerCount.Keys == accounts && notices == map[]
    {
      processed, relations, following, active := {}, {}, {}, {};
      followerCount := map a | a in accounts :: 0;
      notices := map[];
      new;
      assert forall a :: FollowersOf(relations, a) == {};
    }

    // UPDATE accounts SET follower_count = follower_count + step WHERE id = author [AND follower_count > 0]
    method AdjustCount(author: nat, step: int, onlyPositive: bool)
      modifies this`followerCount
      ensures followerCount == if author in old(followerCount) && (onlyPositive ==> old(followerCount)[author] > 0)
                               then old(followerCount)[author := old(followerCount)[author] + step] else old(followerCount)
    {
      if author in followerCount && (onlyPositive ==> followerCount[author] > 0) {
        followerCount := followerCount[author := followerCount[author] + step];
      }
    }

    // resetFollowingFeed: drop the cached list, clear the flag.
    method ResetFollowingFeed(follower: nat)
      modifies this`following, this`active
      ensures following == old(following) - {follower} && active == old(active) - {follower}
    {
      following := following - {follower};
      active := active - {follower};
    }

    // The notice is written exactly for a relation that was not there.
    method HandleFollowed(event: nat, follower: nat, author: nat, now: int) returns (e: Option<PayloadError>)
      requires Valid()
      modifies this
      ensures Valid() && followerCount.Keys == old(followerCount.Keys)
      ensures e.Some? <==> follower == 0 || author == 0
      ensures e.Some? ==> unchanged(this)
      ensures e.None? ==> processed == old(processed) + {event}
                          && relations == (if event in old(processed) then old(relations)
                                           else old(relations) + {(follower, author)})
                          && notices == (if event in old(processed) || (follower, author) in old(relations)
                                         then old(notices) else Notified(old(notices), author, follower, now))
                          && following == old(following) - {follower} && active == old(active) - {follower}
    {
      if follower == 0 || author == 0 {
        return Some(InvalidPayload);
      }
      if event !in processed {
        processed := processed + {event};
        if (follower, author) !in relations {
          ghost var before := relations;
          relations := relations + {(follower, author)};
          OneMoreFollower(before, follower, author);
          AdjustCount(author, 1, false);
          notices := Notified(notices, author, follower, now);
        } else {
          assert relations + {(follower, author)} == relations;
        }
      } else {
        assert processed + {event} == processed;
      }
      ResetFollowingFeed(follower);
      return None;
    }

    // The guard on the count never bites: a relation that can be deleted was counted.
    method HandleUnfollowed(event: nat, follower: nat, author: nat) returns (e: Option<PayloadError>)
      requires Valid()
      modifies this
      ensures Valid() && followerCount.Keys == old(followerCount.Keys)
      ensures e.Some? <==> follower == 0 || author == 0
      ensures e.Some? ==> unchanged(this)
      ensures e.None? ==> processed == old(processed) + {event}
                          && relations == (if event in old(processed) then old(relations)
                                           else old(relations) - {(follower, author)})
                          && notices == old(notices)
                          && following == old(following) - {follower} && active == old(active) - {follower}
    {
      if follower == 0 || author == 0 {
        return Some(InvalidPayload);
      }
      if event !in processed {
        processed := processed + {event};
        if (follower, author) in relations {
          ghost var before := relations;
          relations := relations - {(follower, author)};
          OneFollowerLess(before, follower, author);
          AdjustCount(author, -1, true);
        } else {
          assert relations - {(follower, author)} == relations;
        }
      } else {
        assert processed + {event} == processed;
      }
      ResetFollowingFeed(follower);
      return None;
    }
  }

  lemma OneMoreFollower(relations: set<(nat, nat)>, follower: nat, author: nat)
    requires (follower, author) !in relations
    ensures forall a :: |FollowersOf(relations + {(follower, author)}, a)|
                     == |FollowersOf(relations, a)| + if a == author then 1 else 0
  {
    forall a {
      FollowersWith(relations, follower, author, a);
    }
  }

  lemma FollowersWith(relations: set<(nat, nat)>, follower: nat, author: nat, a: nat)
    requires (follower, author) !in relations
    ensures |FollowersOf(relations + {(follower, author)}, a)| == |FollowersOf(relations,
                                                                               a)| + if a == author then 1 else 0
  {
    var before, after := FollowersOf(relations, a), FollowersOf(relations + {(follower, author)}, a);
    if a == author {
      assert (follower, author) in relations + {(follower, author)};
      assert follower !in before;
      assert after == before + {follower};
    } else {
      assert after == before;
    }
  }

  lemma OneFollowerLess(relations: set<(nat, nat)>, follower: nat, author: nat)
    requires (follower, author) in relations
    ensures forall a :: |FollowersOf(relations - {(follower, author)}, a)|
                     == |FollowersOf(relations, a)| - if a == author then 1 else 0
  {
    var less := relations - {(follower, author)};
    assert less + {(follower, author)} == relations;
    OneMoreFollower(less, follower, author);
  }
}

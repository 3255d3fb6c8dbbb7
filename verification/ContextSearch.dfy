/**
 Searching the context shards of `src/session_context.rs`: the latest checkpoint per session and
 turn, ranked. Directory order and hash order are arbitrary; the result is not.
 */
module ContextSearch {
  import opened Prelude
  import opened ContextShards

  datatype Key = Key(session: string, turn: U32)

  function KeyOf(c: Checkpoint): Key {
    Key(c.session, c.turn)
  }

  // ---------- The latest checkpoint per key ----------

  /** Later checkpoints replace earlier ones of the same key. */
  function Latest(cs: seq<Checkpoint>): map<Key, Checkpoint> {
    if cs == [] then map[]
    else
      var last := cs[|cs| - 1];
      Latest(cs[..|cs| - 1])[KeyOf(last) := last]
  }

  lemma {:induction false} LatestConcat(a: seq<Checkpoint>, b: seq<Checkpoint>)
    ensures Latest(a + b) == Latest(a) + Latest(b)
  {
    if b == [] {
      assert a + b == a;
    } else {
      LatestConcat(a, b[..|b| - 1]);
      assert (a + b)[..|a + b| - 1] == a + b[..|b| - 1];
    }
  }

  lemma {:induction false} LatestIsFromList(cs: seq<Checkpoint>)
    ensures forall k | k in Latest(cs) :: Latest(cs)[k] in cs && KeyOf(Latest(cs)[k]) == k
    ensures forall c | c in cs :: KeyOf(c) in Latest(cs)
  {
    if cs != [] {
      var before := cs[..|cs| - 1];
      LatestIsFromList(before);
      assert cs == before + [cs[|cs| - 1]];
    }
  }

  /** The checkpoint of a key is the last one recorded for it. */
  lemma {:induction false} LatestIsLast(cs: seq<Checkpoint>, i: nat)
    requires i < |cs| && forall j | i < j < |cs| :: !(cs[j].session == cs[i].session && cs[j].turn == cs[i].turn)
    ensures Key(cs[i].session, cs[i].turn) in Latest(cs) && Latest(cs)[Key(cs[i].session, cs[i].turn)] == cs[i]
  {
    if i < |cs| - 1 {
      LatestIsLast(cs[..|cs| - 1], i);
    }
  }

  /** The shards in the order in which the directory is listed. */
  function Listed(shards: map<string, seq<Checkpoint>>, order: seq<string>): seq<Checkpoint>
    requires forall d | d in order :: d in shards
  {
    if order == [] then [] else Listed(shards, order[..|order| - 1]) + shards[order[|order| - 1]]
  }

  /** A listing names every directory. */
  ghost predicate Lists(shards: map<string, seq<Checkpoint>>, order: seq<string>) {
    forall d :: d in order <==> d in shards
  }

  /** Two shards never hold the same key, because a shard only holds its own session. */
  predicate Disjoint(shards: map<string, seq<Checkpoint>>) {
    forall d, d', c, c' |
      d in shards && d' in shards && c in shards[d] && c' in shards[d'] && KeyOf(c) == KeyOf(c') :: d == d'
  }

  /** Shards that hold the same key agree on its latest checkpoint. */
  predicate AgreeOnKeys(shards: map<string, seq<Checkpoint>>) {
    forall d, d', k | d in shards && d' in shards && k in Latest(shards[d]) && k in Latest(shards[d']) ::
      Latest(shards[d])[k] == Latest(shards[d'])[k]
  }

  lemma DisjointAgree(shards: map<string, seq<Checkpoint>>)
    requires Disjoint(shards)
    ensures AgreeOnKeys(shards)
  {
    forall d, d', k | d in shards && d' in shards && k in Latest(shards[d]) && k in Latest(shards[d'])
      ensures Latest(shards[d])[k] == Latest(shards[d'])[k]
    {
      LatestIsFromList(shards[d]);
      LatestIsFromList(shards[d']);
      var c, c' := Latest(shards[d])[k], Latest(shards[d'])[k];
      assert c in shards[d] && c' in shards[d'] && KeyOf(c) == KeyOf(c');
    }
  }

  /** What the shard store keeps, each shard holding its own session only, rules such a key out. */
  lemma OwnSessionsAreDisjoint(files: map<string, Shard>)
    requires forall d | d in files :: OwnSession(d, files[d])
    ensures Disjoint(map d | d in files :: Checkpoints(files[d]))
    ensures AgreeOnKeys(map d | d in files :: Checkpoints(files[d]))
  {
    DisjointAgree(map d | d in files :: Checkpoints(files[d]));
  }

  lemma ListedStep(shards: map<string, seq<Checkpoint>>, order: seq<string>, k: Key)
    requires (forall x | x in order :: x in shards) && order != []
    ensures var n := |order| - 1;
            var last := Latest(shards[order[n]]);
            && Latest(Listed(shards, order)) == Latest(Listed(shards, order[..n])) + last
            && (k in last ==> k in Latest(Listed(shards, order)) && Latest(Listed(shards, order))[k] == last[k])
  {
    var n := |order| - 1;
    LatestConcat(Listed(shards, order[..n]), shards[order[n]]);
  }

  lemma {:induction false} LatestInListing(shards: map<string, seq<Checkpoint>>, order: seq<string>, d: string, k: Key)
    requires AgreeOnKeys(shards) && forall x | x in order :: x in shards
    requires d in order && k in Latest(shards[d])
    ensures k in Latest(Listed(shards, order))
    ensures Latest(Listed(shards, order))[k] == Latest(shards[d])[k]
  {
    var n := |order| - 1;
    var last := order[n];
    ListedStep(shards, order, k);
    if k in Latest(shards[last]) {
      assert last in shards;
    } else {
      assert d in order[..n];
      LatestInListing(shards, order[..n], d, k);
    }
  }

  lemma {:induction false} ListedFromShards(shards: map<string, seq<Checkpoint>>, order: seq<string>, c: Checkpoint)
    requires forall d | d in order :: d in shards
    requires c in Listed(shards, order)
    ensures exists d | d in order :: c in shards[d]
  {
    if order != [] {
      var n := |order| - 1;
      if c in shards[order[n]] {
        assert order[n] in order;
      } else {
        ListedFromShards(shards, order[..n], c);
        var d :| d in order[..n] && c in shards[d];
        assert d in order;
      }
    }
  }

  lemma SameInOther(shards: map<string, seq<Checkpoint>>, order: seq<string>, other: seq<string>, k: Key)
    requires AgreeOnKeys(shards) && Lists(shards, order) && Lists(shards, other)
    requires k in Latest(Listed(shards, order))
    ensures k in Latest(Listed(shards, other))
    ensures Latest(Listed(shards, other))[k] == Latest(Listed(shards, order))[k]
  {
    var c := Latest(Listed(shards, order))[k];
    LatestIsFromList(Listed(shards, order));
    ListedFromShards(shards, order, c);
    var d :| d in order && c in shards[d];
    LatestIsFromList(shards[d]);
    LatestInListing(shards, order, d, k);
    LatestInListing(shards, other, d, k);
  }

  /** The latest checkpoints do not depend on the order of the listing. */
  lemma LatestIsOrderIndependent(shards: map<string, seq<Checkpoint>>, order: seq<string>, other: seq<string>)
    requires AgreeOnKeys(shards) && Lists(shards, order) && Lists(shards, other)
    ensures Latest(Listed(shards, order)) == Latest(Listed(shards, other))
  {
    var m, m' := Latest(Listed(shards, order)), Latest(Listed(shards, other));
    forall k | k in m ensures k in m' && m'[k] == m[k] {
      SameInOther(shards, order, other, k);
    }
    forall k | k in m' ensures k in m {
      SameInOther(shards, other, order, k);
    }
  }

  // ---------- When the order matters ----------

  predicate Distinct(order: seq<string>) {
    forall i, j | 0 <= i < j < |order| :: order[i] != order[j]
  }

  lemma {:induction false} SomeListing(names: set<string>) returns (order: seq<string>)
    ensures Distinct(order) && forall d :: d in order <==> d in names
    decreases names
  {
    order := [];
    if names != {} {
      var d :| d in names;
      var rest := SomeListing(names - {d});
      order := rest + [d];
      assert forall x | x in rest :: x != d;
    }
  }

  /** A directory read twice: each listing names every shard once. */
  ghost predicate Listing(shards: map<string, seq<Checkpoint>>, order: seq<string>) {
    Lists(shards, order) && Distinct(order)
  }

  lemma LastShardWins(shards: map<string, seq<Checkpoint>>, order: seq<string>, d: string, k: Key)
    requires forall x | x in order + [d] :: x in shards
    requires d in shards && k in Latest(shards[d])
    ensures k in Latest(Listed(shards, order + [d]))
    ensures Latest(Listed(shards, order + [d]))[k] == Latest(shards[d])[k]
  {
    assert (order + [d])[..|order|] == order;
    LatestConcat(Listed(shards, order), shards[d]);
  }

  lemma ListingWith(shards: map<string, seq<Checkpoint>>, rest: seq<string>, d: string, d': string)
    requires d in shards && d' in shards && d != d'
    requires Distinct(rest) && forall x :: x in rest <==> x in shards && x != d && x != d'
    ensures Listing(shards, rest + [d] + [d'])
  {
    var order := rest + [d] + [d'];
    forall i, j | 0 <= i < j < |order| ensures order[i] != order[j] {
      assert i < |rest| ==> order[i] in rest;
    }
    assert forall x :: x in order <==> x in rest || x == d || x == d';
  }

  /** Where two shards disagree on a key, listing the one or the other last makes a difference. */
  lemma OrderMatters(shards: map<string, seq<Checkpoint>>, d: string, d': string, k: Key)
    returns (order: seq<string>, other: seq<string>)
    requires d in shards && d' in shards && k in Latest(shards[d]) && k in Latest(shards[d'])
    requires Latest(shards[d])[k] != Latest(shards[d'])[k]
    ensures Listing(shards, order) && Listing(shards, other)
    ensures Latest(Listed(shards, order)) != Latest(Listed(shards, other))
  {
    var rest := SomeListing(shards.Keys - {d, d'});
    order, other := rest + [d'] + [d], rest + [d] + [d'];
    ListingWith(shards, rest, d', d);
    ListingWith(shards, rest, d, d');
    LastShardWins(shards, rest + [d'], d, k);
    LastShardWins(shards, rest + [d], d', k);
  }

  /**
   All listings of the directory give the same latest checkpoints if and only if shards that hold
   the same key agree on its latest checkpoint.
   */
  lemma ListingsAgreeIff(shards: map<string, seq<Checkpoint>>)
    ensures AgreeOnKeys(shards) <==>
              forall order, other | Listing(shards, order) && Listing(shards, other) ::
                Latest(Listed(shards, order)) == Latest(Listed(shards, other))
  {
    if AgreeOnKeys(shards) {
      forall order, other | Listing(shards, order) && Listing(shards, other)
        ensures Latest(Listed(shards, order)) == Latest(Listed(shards, other))
      {
        LatestIsOrderIndependent(shards, order, other);
      }
    } else {
      var d, d', k :|
        && d in shards && d' in shards && k in Latest(shards[d]) && k in Latest(shards[d'])
        && Latest(shards[d])[k] != Latest(shards[d'])[k];
      var order, other := OrderMatters(shards, d, d', k);
    }
  }

  // ---------- The order of the hits ----------

  /** Strings compare by their characters. */
  predicate Less(a: string, b: string) {
    b != [] && (a == [] || a[0] < b[0] || (a[0] == b[0] && Less(a[1..], b[1..])))
  }

  lemma {:induction false} LessTransitive(a: string, b: string, c: string)
    requires Less(a, b) && Less(b, c)
    ensures Less(a, c)
  {
    if a != [] && a[0] == b[0] && b[0] == c[0] {
      LessTransitive(a[1..], b[1..], c[1..]);
    }
  }

  lemma {:induction false} LessIrreflexive(a: string)
    ensures !Less(a, a)
  {
    if a != [] {
      LessIrreflexive(a[1..]);
    }
  }

  lemma {:induction false} LessTotal(a: string, b: string)
    ensures a == b || Less(a, b) || Less(b, a)
  {
    if a != [] && b != [] && a[0] == b[0] {
      LessTotal(a[1..], b[1..]);
      assert a == [a[0]] + a[1..] && b == [b[0]] + b[1..];
    }
  }

  /** Where two strings first differ the smaller character decides; a string comes after its prefixes. */
  lemma {:induction false} LessIff(a: string, b: string)
    ensures Less(a, b) <==>
              exists k: nat :: k <= |a| && k < |b| && a[..k] == b[..k] && (k == |a| || a[k] < b[k])
  {
    if a != [] && b != [] && a[0] == b[0] {
      LessIff(a[1..], b[1..]);
      if k: nat :| k <= |a[1..]| && k < |b[1..]| && a[1..][..k] == b[1..][..k]
                   && (k == |a[1..]| || a[1..][k] < b[1..][k]) {
        assert a[..k + 1] == [a[0]] + a[1..][..k] && b[..k + 1] == [b[0]] + b[1..][..k];
      }
      if k: nat :| k <= |a| && k < |b| && a[..k] == b[..k] && (k == |a| || a[k] < b[k]) {
        assert k > 0;
        assert a[1..][..k - 1] == a[..k][1..] && b[1..][..k - 1] == b[..k][1..];
      }
    } else {
      assert a[..0] == b[..0];
      forall k: nat | 0 < k <= |a| && k < |b| && a[..k] == b[..k] ensures a[0] == b[0] {
        assert a[..k][0] == b[..k][0];
      }
    }
  }

  datatype Hit = Hit(checkpoint: Checkpoint, score: real)

  /** Higher score first, then the more recent, then by session and by turn. */
  predicate Before(a: Hit, b: Hit) {
    var x, y := a.checkpoint, b.checkpoint;
    || a.score > b.score
    || (a.score == b.score
        && (|| x.recordedAt > y.recordedAt
            || (x.recordedAt == y.recordedAt
                && (Less(x.session, y.session) || (x.session == y.session && x.turn < y.turn)))))
  }

  lemma BeforeTransitive(a: Hit, b: Hit, c: Hit)
    requires Before(a, b) && Before(b, c)
    ensures Before(a, c)
  {
    if Less(a.checkpoint.session, b.checkpoint.session) && Less(b.checkpoint.session, c.checkpoint.session) {
      LessTransitive(a.checkpoint.session, b.checkpoint.session, c.checkpoint.session);
    }
  }

  lemma BeforeIrreflexive(a: Hit)
    ensures !Before(a, a)
  {
    LessIrreflexive(a.checkpoint.session);
  }

  lemma BeforeTotal(a: Hit, b: Hit)
    requires KeyOf(a.checkpoint) != KeyOf(b.checkpoint)
    ensures Before(a, b) || Before(b, a)
  {
    LessTotal(a.checkpoint.session, b.checkpoint.session);
  }

  predicate Ranked(hits: seq<Hit>) {
    forall i, j | 0 <= i < j < |hits| :: Before(hits[i], hits[j])
  }

  lemma NoCycle(x: Hit, y: Hit)
    ensures !(Before(x, y) && Before(y, x))
  {
    if Before(x, y) && Before(y, x) {
      BeforeTransitive(x, y, x);
      BeforeIrreflexive(x);
    }
  }

  lemma FirstIsElement(a: seq<Hit>)
    ensures a == [] || a[0] in a
  {
  }

  lemma FirstIsBefore(a: seq<Hit>, h: Hit)
    requires Ranked(a) && h in a
    ensures h == a[0] || Before(a[0], h)
  {
  }

  lemma SameFirst(a: seq<Hit>, b: seq<Hit>)
    requires Ranked(a) && Ranked(b) && a != [] && forall h :: h in a <==> h in b
    ensures b != [] && a[0] == b[0]
  {
    FirstIsElement(a);
    FirstIsElement(b);
    NoCycle(a[0], b[0]);
    FirstIsBefore(b, a[0]);
    FirstIsBefore(a, b[0]);
  }

  lemma InRest(a: seq<Hit>, h: Hit)
    requires Ranked(a) && a != []
    ensures h in a[1..] <==> h in a && h != a[0]
  {
    BeforeIrreflexive(a[0]);
    assert a == [a[0]] + a[1..];
  }

  /** A ranking is determined by which hits it holds. */
  lemma {:induction false} RankingIsUnique(a: seq<Hit>, b: seq<Hit>)
    requires Ranked(a) && Ranked(b) && forall h :: h in a <==> h in b
    ensures a == b
  {
    if a == [] {
      FirstIsElement(b);
    } else {
      SameFirst(a, b);
      forall h ensures h in a[1..] <==> h in b[1..] {
        InRest(a, h);
        InRest(b, h);
      }
      RankingIsUnique(a[1..], b[1..]);
    }
  }

  // ---------- The search ----------

  /** The positive-scoring latest checkpoints, in rank order. */
  ghost predicate IsRanking(latest: map<Key, Checkpoint>, score: string -> real, hits: seq<Hit>) {
    && Ranked(hits)
    && forall h :: h in hits <==> h.checkpoint in latest.Values && h.score == score(h.checkpoint.text) && h.score > 0.0
  }

  function Truncated(hits: seq<Hit>, limit: nat): seq<Hit> {
    if |hits| <= limit then hits else hits[..limit]
  }

  ghost predicate IsResult(
    latest: map<Key, Checkpoint>, query: string, score: string -> real, limit: nat, result: seq<Hit>)
  {
    if Blank(query) || limit == 0 then result == []
    else exists hits :: IsRanking(latest, score, hits) && result == Truncated(hits, limit)
  }

  /**
   Two searches of the same shards give the same hits in the same order, whatever order the
   directory was listed in and whatever order the hash map was emptied in.
   */
  lemma SearchIsOrderIndependent(shards: map<string, seq<Checkpoint>>, order: seq<string>, other: seq<string>,
                                 query: string, score: string -> real, limit: nat, a: seq<Hit>, b: seq<Hit>)
    requires AgreeOnKeys(shards) && Lists(shards, order) && Lists(shards, other)
    requires IsResult(Latest(Listed(shards, order)), query, score, limit, a)
    requires IsResult(Latest(Listed(shards, other)), query, score, limit, b)
    ensures a == b
  {
    LatestIsOrderIndependent(shards, order, other);
    if !Blank(query) && limit != 0 {
      var latest := Latest(Listed(shards, order));
      var hits :| IsRanking(latest, score, hits) && a == Truncated(hits, limit);
      var hits' :| IsRanking(latest, score, hits') && b == Truncated(hits', limit);
      RankingIsUnique(hits, hits');
    }
  }

  /** No worse in what counts: the score, then the time, then session and turn. */
  predicate AtLeastAsGood(a: Hit, b: Hit) {
    || a.score > b.score
    || (a.score == b.score && a.checkpoint.recordedAt > b.checkpoint.recordedAt)
    || (&& a.score == b.score && a.checkpoint.recordedAt == b.checkpoint.recordedAt
        && if a.checkpoint.session == b.checkpoint.session then a.checkpoint.turn <= b.checkpoint.turn
           else Less(a.checkpoint.session, b.checkpoint.session))
  }

  lemma BeforeIsAsGood(a: Hit, b: Hit)
    requires Before(a, b)
    ensures AtLeastAsGood(a, b)
  {
    LessIrreflexive(a.checkpoint.session);
  }

  lemma TruncatedAt(hits: seq<Hit>, limit: nat)
    ensures |Truncated(hits, limit)| == if |hits| <= limit then |hits| else limit
    ensures forall i | 0 <= i < |Truncated(hits, limit)| :: Truncated(hits, limit)[i] == hits[i]
  {
  }

  lemma TruncatedIsRanked(hits: seq<Hit>, limit: nat)
    requires Ranked(hits)
    ensures Ranked(Truncated(hits, limit)) && forall h | h in Truncated(hits, limit) :: h in hits
  {
    TruncatedAt(hits, limit);
  }

  lemma KeptIsReturned(hits: seq<Hit>, limit: nat, k: nat)
    requires k < |hits|
    ensures k < |Truncated(hits, limit)| ==> hits[k] in Truncated(hits, limit)
  {
  }

  lemma LeftOutIsNoBetter(hits: seq<Hit>, limit: nat, left: Hit)
    requires Ranked(hits) && left in hits && left !in Truncated(hits, limit)
    ensures |Truncated(hits, limit)| == limit && forall h | h in Truncated(hits, limit) :: Before(h, left)
  {
    TruncatedAt(hits, limit);
    var k :| 0 <= k < |hits| && hits[k] == left;
    var result := Truncated(hits, limit);
    KeptIsReturned(hits, limit, k);
    forall h | h in result ensures Before(h, left) {
      var i :| 0 <= i < |result| && result[i] == h;
    }
  }

  /**
   A search returns latest checkpoints that score, best first, and leaves out only those that are no
   better than any it returns, and only when it has returned as many as were asked for.
   */
  lemma SearchReturnsTheBest(latest: map<Key, Checkpoint>, query: string, score: string -> real, limit: nat,
                             result: seq<Hit>, c: Checkpoint)
    requires IsResult(latest, query, score, limit, result)
    requires limit > 0 && (exists ch | ch in query :: !IsWhitespace(ch)) && c in latest.Values
    ensures forall h | h in result ::
              h.checkpoint in latest.Values && h.score == score(h.checkpoint.text) && h.score > 0.0
    ensures forall i, j | 0 <= i < j < |result| :: AtLeastAsGood(result[i], result[j])
    ensures Hit(c, score(c.text)) in result || score(c.text) <= 0.0 ||
              (|result| == limit && forall h | h in result :: AtLeastAsGood(h, Hit(c, score(c.text))))
  {
    var hits :| IsRanking(latest, score, hits) && result == Truncated(hits, limit);
    TruncatedIsRanked(hits, limit);
    forall a, b | Before(a, b) ensures AtLeastAsGood(a, b) {
      BeforeIsAsGood(a, b);
    }
    if score(c.text) > 0.0 && Hit(c, score(c.text)) !in result {
      LeftOutIsNoBetter(hits, limit, Hit(c, score(c.text)));
    }
  }

  lemma InsertedElements(hits: seq<Hit>, h: Hit, i: nat)
    requires i <= |hits|
    ensures forall other :: other in hits[..i] + [h] + hits[i..] <==> other in hits || other == h
  {
  }

  /** Insert a hit in front of the first one it comes before. */
  method Insert(hits: seq<Hit>, h: Hit) returns (inserted: seq<Hit>)
    requires Ranked(hits)
    requires forall other | other in hits :: KeyOf(other.checkpoint) != KeyOf(h.checkpoint)
    ensures Ranked(inserted)
    ensures forall other :: other in inserted <==> other in hits || other == h
  {
    var i := 0;
    while i < |hits| && Before(hits[i], h)
      invariant 0 <= i <= |hits|
      invariant forall k | 0 <= k < i :: Before(hits[k], h)
    {
      i := i + 1;
    }
    inserted := hits[..i] + [h] + hits[i..];
    forall k | i <= k < |hits| ensures Before(h, hits[k]) {
      BeforeTotal(hits[i], h);
      if k > i {
        BeforeTransitive(h, hits[i], hits[k]);
      }
    }
    InsertedElements(hits, h, i);
  }

  method LatestByKey(shards: map<string, seq<Checkpoint>>, order: seq<string>) returns (latest: map<Key, Checkpoint>)
    requires Lists(shards, order)
    ensures latest == Latest(Listed(shards, order))
  {
    latest := map[];
    for i := 0 to |order|
      invariant latest == Latest(Listed(shards, order[..i]))
    {
      assert order[..i + 1][..i] == order[..i];
      var cs := shards[order[i]];
      ghost var before := latest;
      for j := 0 to |cs|
        invariant latest == before + Latest(cs[..j])
      {
        assert cs[..j + 1][..j] == cs[..j];
        latest := latest[KeyOf(cs[j]) := cs[j]];
      }
      assert cs[..|cs|] == cs;
      LatestConcat(Listed(shards, order[..i]), cs);
    }
    assert order[..|order|] == order;
  }

  /** `order` is the order of the directory listing; the hash map is emptied in any order. */
  method SearchContextShards(shards: map<string, seq<Checkpoint>>, order: seq<string>,
                             query: string, score: string -> real, limit: nat) returns (result: seq<Hit>)
    requires Lists(shards, order)
    ensures IsResult(Latest(Listed(shards, order)), query, score, limit, result)
    ensures |result| <= limit
  {
    if Blank(query) || limit == 0 {
      return [];
    }
    var latest := LatestByKey(shards, order);
    LatestIsFromList(Listed(shards, order));
    var hits: seq<Hit> := [];
    var rest := latest.Keys;
    while rest != {}
      invariant rest <= latest.Keys
      invariant Ranked(hits)
      invariant forall h :: h in hits <==>
                  && KeyOf(h.checkpoint) in latest.Keys - rest
                  && latest[KeyOf(h.checkpoint)] == h.checkpoint
                  && h.score == score(h.checkpoint.text)
                  && h.score > 0.0
      decreases rest
    {
      var k :| k in rest;
      var c := latest[k];
      if score(c.text) > 0.0 {
        hits := Insert(hits, Hit(c, score(c.text)));
      }
      rest := rest - {k};
    }
    assert forall c :: c in latest.Values <==> KeyOf(c) in latest && latest[KeyOf(c)] == c;
    assert IsRanking(latest, score, hits);
    result := Truncated(hits, limit);
  }
}

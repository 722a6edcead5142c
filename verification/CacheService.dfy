/**
 The cache over Redis with an in-memory fallback. Redis is an expiring keyed store whose commands
 may fail, or take effect and lose their reply; the clock is read once per operation.
 */
module CacheService {
  import opened Sequences
  import opened Wrappers

  datatype Entry<V> = Entry(value: V, expiry: int)

  // What a Redis command did: it ran, it ran but the client saw an error, it did not run.
  datatype Reply = Done | Lost | Refused

  datatype Event<V> =
    | Get(key: string, now: int, up: bool)
    | Set(key: string, value: V, ttlSeconds: int, now: int, reply: Reply)
    | Invalidate(pattern: string, now: int, pages: seq<seq<string>>, scanned: bool, reply: Reply)

  datatype State<V> = State(hasRedis: bool, redis: map<string, Entry<V>>, fallback: map<string, Entry<V>>)

  function Init<V>(hasRedis: bool): State<V> {
    State(hasRedis, map[], map[])
  }

  function Deadline(now: int, ttlSeconds: int): int {
    now + ttlSeconds * 1000
  }

  /** SETEX refuses a time to live below one second. */
  function SetReply(ttlSeconds: int, reply: Reply): Reply {
    if ttlSeconds < 1 then Refused else reply
  }

  /** The pattern without its first star. */
  function DropFirstStar(pattern: string): string {
    if pattern == "" then ""
    else if pattern[0] == '*' then pattern[1..]
    else [pattern[0]] + DropFirstStar(pattern[1..])
  }

  predicate StartsWith(key: string, prefix: string) {
    prefix <= key
  }

  function PurgeFallback<V>(fallback: map<string, Entry<V>>, pattern: string): map<string, Entry<V>> {
    map k | k in fallback && !StartsWith(k, DropFirstStar(pattern)) :: fallback[k]
  }

  function Lookup<V>(m: map<string, Entry<V>>, key: string): Option<Entry<V>> {
    if key in m then Some(m[key]) else None
  }

  /** A Redis key is seen up to its expiry. */
  function RedisValue<V>(e: Option<Entry<V>>, now: int): Option<V> {
    if e.Some? && now <= e.value.expiry then Some(e.value.value) else None
  }

  /** A fallback entry whose expiry is 0 is taken as having none. */
  function FallbackValue<V>(e: Option<Entry<V>>, now: int): Option<V> {
    if e.Some? && (e.value.expiry == 0 || now <= e.value.expiry) then Some(e.value.value) else None
  }

  function Answer<V>(s: State<V>, key: string, now: int, up: bool): Option<V> {
    if s.hasRedis && up then RedisValue(Lookup(s.redis, key), now) else FallbackValue(Lookup(s.fallback, key), now)
  }

  function DoGet<V>(s: State<V>, key: string, now: int, up: bool): State<V> {
    if (s.hasRedis && up) || FallbackValue(Lookup(s.fallback, key), now).Some? then s
    else s.(fallback := s.fallback - {key})
  }

  function DoSet<V>(s: State<V>, key: string, value: V, ttlSeconds: int, now: int, reply: Reply): State<V> {
    var e := Entry(value, Deadline(now, ttlSeconds));
    var r := SetReply(ttlSeconds, reply);
    var s' := if s.hasRedis && !r.Refused? then s.(redis := s.redis[key := e]) else s;
    if s.hasRedis && r.Done? then s' else s'.(fallback := s.fallback[key := e])
  }

  function DoInvalidate<V>(s: State<V>, pattern: string, pages: seq<seq<string>>, scanned: bool,
      reply: Reply): State<V>
  {
    var keys := Flatten(pages);
    if s.hasRedis && scanned && keys == [] then s
    else
      var s' := if s.hasRedis && scanned && !reply.Refused? then s.(redis := s.redis - set k | k in keys) else s;
      if s.hasRedis && scanned && reply.Done? then s' else s'.(fallback := PurgeFallback(s.fallback, pattern))
  }

  function Apply<V>(s: State<V>, ev: Event<V>): State<V> {
    match ev
    case Get(key, now, up) => DoGet(s, key, now, up)
    case Set(key, value, ttlSeconds, now, reply) => DoSet(s, key, value, ttlSeconds, now, reply)
    case Invalidate(pattern, _, pages, scanned, reply) => DoInvalidate(s, pattern, pages, scanned, reply)
  }

  function Run<V>(s: State<V>, evs: seq<Event<V>>): State<V> {
    if evs == [] then s else Apply(Run(s, evs[..|evs| - 1]), evs[|evs| - 1])
  }

  // ------------------------------------------------------ the methods, as they run

  class Cache<V(==)> {
    const hasRedis: bool
    var redis: map<string, Entry<V>>
    var fallback: map<string, Entry<V>>

    ghost function Abs(): State<V>
      reads this
    {
      State(hasRedis, redis, fallback)
    }

    constructor (hasRedis: bool)
      ensures Abs() == Init(hasRedis)
    {
      this.hasRedis := hasRedis;
      redis, fallback := map[], map[];
    }

    method Fetch(key: string, now: int, up: bool) returns (value: Option<V>)
      modifies this`fallback
      ensures value == old(Answer(Abs(), key, now, up))
      ensures Abs() == DoGet(old(Abs()), key, now, up)
      ensures hasRedis && up ==> fallback == old(fallback)
      ensures hasRedis && up ==>
                value == if key in redis && now <= redis[key].expiry then Some(redis[key].value) else None
      ensures !(hasRedis && up) && key in old(fallback) &&
              (old(fallback)[key].expiry == 0 || now <= old(fallback)[key].expiry) ==>
                value == Some(old(fallback)[key].value) && fallback == old(fallback)
      ensures !(hasRedis && up) && !(key in old(fallback) &&
                (old(fallback)[key].expiry == 0 || now <= old(fallback)[key].expiry)) ==>
                value == None && fallback == old(fallback) - {key}
    {
      if hasRedis && up {
        value := if key in redis && now <= redis[key].expiry then Some(redis[key].value) else None;
        return;
      }
      if key !in fallback {
        assert fallback - {key} == fallback;
        return None;
      }
      var entry := fallback[key];
      if entry.expiry != 0 && now > entry.expiry {
        fallback := fallback - {key};
        return None;
      }
      return Some(entry.value);
    }

    method Store(key: string, value: V, ttlSeconds: int, now: int, reply: Reply)
      modifies this
      ensures Abs() == DoSet(old(Abs()), key, value, ttlSeconds, now, reply)
      ensures redis == if hasRedis && ttlSeconds >= 1 && !reply.Refused?
                       then old(redis)[key := Entry(value, now + 1000 * ttlSeconds)] else old(redis)
      ensures fallback == if hasRedis && ttlSeconds >= 1 && reply.Done? then old(fallback)
                          else old(fallback)[key := Entry(value, now + 1000 * ttlSeconds)]
    {
      if hasRedis {
        var r := SetReply(ttlSeconds, reply);
        if !r.Refused? {
          redis := redis[key := Entry(value, now + ttlSeconds * 1000)];
        }
        if r.Done? {
          return;
        }
      }
      fallback := fallback[key := Entry(value, now + ttlSeconds * 1000)];
    }

    /** The cursor loop: SCAN returns `pages` one by one, and fails after them unless `scanned`. */
    method Purge(pattern: string, pages: seq<seq<string>>, scanned: bool, reply: Reply)
      modifies this
      ensures Abs() == DoInvalidate(old(Abs()), pattern, pages, scanned, reply)
    {
      if hasRedis {
        var keysToDelete: seq<string> := [];
        var cursor := 0;
        while cursor < |pages|
          invariant cursor <= |pages| && keysToDelete == Flatten(pages[..cursor])
          invariant Abs() == old(Abs())
        {
          FlattenSnoc(pages[..cursor], pages[cursor]);
          assert pages[..cursor + 1] == pages[..cursor] + [pages[cursor]];
          keysToDelete := keysToDelete + pages[cursor];
          cursor := cursor + 1;
        }
        assert pages[..|pages|] == pages;
        if scanned {
          if keysToDelete == [] {
            return;
          }
          if !reply.Refused? {
            redis := redis - set k | k in keysToDelete;
          }
          if reply.Done? {
            return;
          }
        }
      }
      var keys := fallback.Keys;
      ghost var before := fallback;
      while keys != {}
        invariant keys <= before.Keys
        invariant fallback == map k | k in before && (k in keys || !StartsWith(k, DropFirstStar(pattern))) :: before[k]
        invariant redis == if hasRedis && scanned && !reply.Refused? then old(Abs()).redis - set k | k in Flatten(pages)
                           else old(Abs()).redis
        decreases |keys|
      {
        var key :| key in keys;
        keys := keys - {key};
        if StartsWith(key, DropFirstStar(pattern)) {
          fallback := fallback - {key};
        }
      }
    }
  }

  /**
   What an invalidation takes: from Redis the keys the scan found, from the fallback those that begin
   with the pattern without its first star, and from one of them nothing if the other was enough.
   */
  lemma InvalidationTakes<V>(s: State<V>, pattern: string, now: int, pages: seq<seq<string>>, scanned: bool,
      reply: Reply, key: string)
    ensures var s' := Apply(s, Invalidate(pattern, now, pages, scanned, reply));
            var enough := s.hasRedis && scanned && (reply.Done? || forall i :: 0 <= i < |pages| ==> pages[i] == []);
            var gone := s.hasRedis && scanned && !reply.Refused? && exists i :: 0 <= i < |pages| && key in pages[i];
            && (Lookup(s'.redis, key) == if gone then None else Lookup(s.redis, key))
            && (Lookup(s'.fallback, key) ==
                if !enough && DropFirstStar(pattern) <= key then None else Lookup(s.fallback, key))
  {
    InSomePage(pages, key);
    NothingListed(pages);
  }

  lemma {:induction false} InSomePage(pages: seq<seq<string>>, key: string)
    ensures key in Flatten(pages) <==> exists i :: 0 <= i < |pages| && key in pages[i]
  {
    if pages != [] {
      InSomePage(pages[1..], key);
      if i :| 0 <= i < |pages| && key in pages[i] {
        assert i > 0 ==> pages[1..][i - 1] == pages[i];
      }
    }
  }

  lemma {:induction false} NothingListed(pages: seq<seq<string>>)
    ensures Flatten(pages) == [] <==> forall i :: 0 <= i < |pages| ==> pages[i] == []
  {
    if pages != [] {
      NothingListed(pages[1..]);
      assert forall i :: 0 <= i < |pages| - 1 ==> pages[1..][i] == pages[i + 1];
      assert forall i :: 0 < i < |pages| ==> pages[i] == pages[1..][i - 1];
    }
  }

  // ---------------------------------------------------------------------- freshness

  /** The value was set for this key by the i-th event and is still within that call's time to live. */
  ghost predicate FreshFrom<V>(evs: seq<Event<V>>, i: nat, key: string, value: V, now: int) {
    && i < |evs| && evs[i].Set? && evs[i].key == key && evs[i].value == value
    && (now <= evs[i].now + 1000 * evs[i].ttlSeconds || evs[i].now + 1000 * evs[i].ttlSeconds == 0)
  }

  ghost predicate SetBy<V>(evs: seq<Event<V>>, i: nat, key: string, e: Entry<V>) {
    i < |evs| && evs[i].Set? && evs[i].key == key && evs[i].value == e.value &&
      e.expiry == evs[i].now + 1000 * evs[i].ttlSeconds
  }

  ghost predicate Traced<V>(evs: seq<Event<V>>, m: map<string, Entry<V>>) {
    forall key :: key in m ==> exists i: nat :: SetBy(evs, i, key, m[key])
  }

  lemma TracedGrows<V>(evs: seq<Event<V>>, ev: Event<V>, m: map<string, Entry<V>>, m': map<string, Entry<V>>)
    requires Traced(evs, m)
    requires forall key :: key in m' ==> (key in m && m'[key] == m[key]) || SetBy(evs + [ev], |evs|, key, m'[key])
    ensures Traced(evs + [ev], m')
  {
    forall key | key in m' ensures exists i: nat :: SetBy(evs + [ev], i, key, m'[key]) {
      if key in m && m'[key] == m[key] {
        var i: nat :| SetBy(evs, i, key, m[key]);
        assert SetBy(evs + [ev], i, key, m'[key]);
      }
    }
  }

  lemma StepIsTraced<V>(s: State<V>, evs: seq<Event<V>>, ev: Event<V>)
    requires Traced(evs, s.redis) && Traced(evs, s.fallback)
    ensures Traced(evs + [ev], Apply(s, ev).redis) && Traced(evs + [ev], Apply(s, ev).fallback)
  {
    var s' := Apply(s, ev);
    assert (evs + [ev])[|evs|] == ev;
    forall key | key in s'.redis
      ensures (key in s.redis && s'.redis[key] == s.redis[key]) || SetBy(evs + [ev], |evs|, key, s'.redis[key]) {}
    forall key | key in s'.fallback
      ensures (key in s.fallback && s'.fallback[key] == s.fallback[key]) ||
          SetBy(evs + [ev], |evs|, key, s'.fallback[key])
    {}
    TracedGrows(evs, ev, s.redis, s'.redis);
    TracedGrows(evs, ev, s.fallback, s'.fallback);
  }

  lemma {:induction false} RunIsTraced<V>(hasRedis: bool, evs: seq<Event<V>>)
    ensures Traced(evs, Run(Init(hasRedis), evs).redis)
    ensures Traced(evs, Run(Init(hasRedis), evs).fallback)
  {
    if evs != [] {
      var rest, last := evs[..|evs| - 1], evs[|evs| - 1];
      RunIsTraced(hasRedis, rest);
      StepIsTraced(Run(Init(hasRedis), rest), rest, last);
      assert evs == rest + [last];
    }
  }

  /**
   Whatever fails and in whatever order, a value returned was set for that key and is within its
   time to live, but for a fallback entry whose expiry falls on the epoch.
   */
  lemma {:induction false} ValuesAreFresh<V>(hasRedis: bool, evs: seq<Event<V>>, key: string, now: int, up: bool)
    ensures var r := Answer(Run(Init(hasRedis), evs), key, now, up);
            r.Some? ==> exists i: nat :: FreshFrom(evs, i, key, r.value, now)
  {
    RunIsTraced(hasRedis, evs);
    var s := Run(Init(hasRedis), evs);
    var m := if hasRedis && up then s.redis else s.fallback;
    RunKeepsRedis(hasRedis, evs);
    if Answer(s, key, now, up).Some? {
      var i: nat :| SetBy(evs, i, key, m[key]);
      assert FreshFrom(evs, i, key, m[key].value, now);
    }
  }

  lemma {:induction false} RunKeepsRedis<V>(hasRedis: bool, evs: seq<Event<V>>)
    ensures Run(Init(hasRedis), evs).hasRedis == hasRedis
  {
    if evs != [] {
      RunKeepsRedis(hasRedis, evs[..|evs| - 1]);
    }
  }

  // ------------------------------------------------------------------------ patterns

  /** The glob match of SCAN, for patterns without character classes and escapes. */
  predicate Matches(pattern: string, key: string)
    decreases |pattern| + |key|
  {
    if pattern == "" then key == ""
    else if pattern[0] == '*' then Matches(pattern[1..], key) || (key != "" && Matches(pattern, key[1..]))
    else key != "" && (pattern[0] == '?' || pattern[0] == key[0]) && Matches(pattern[1..], key[1..])
  }

  predicate Literal(s: string) {
    forall i :: 0 <= i < |s| ==> s[i] != '*' && s[i] != '?'
  }

  /** A prefix followed by one star: the form the callers use to clear a family of keys. */
  ghost predicate PrefixPattern(pattern: string) {
    exists prefix: string :: Literal(prefix) && pattern == prefix + "*"
  }

  lemma {:induction false} LoneStar(key: string)
    ensures Matches("*", key)
  {
    if key != "" {
      LoneStar(key[1..]);
    }
  }

  lemma {:induction false} PrefixStar(prefix: string, key: string)
    requires Literal(prefix)
    ensures Matches(prefix + "*", key) <==> prefix <= key
  {
    if prefix == "" {
      assert prefix + "*" == "*";
      LoneStar(key);
    } else {
      assert (prefix + "*")[1..] == prefix[1..] + "*";
      if key != "" {
        PrefixStar(prefix[1..], key[1..]);
        assert prefix <= key <==> prefix[0] == key[0] && prefix[1..] <= key[1..];
      }
    }
  }

  lemma {:induction false} DropUntilStar(prefix: string, rest: string)
    requires '*' !in prefix
    ensures DropFirstStar(prefix + "*" + rest) == prefix + rest
  {
    if prefix == "" {
      assert prefix + "*" + rest == ['*'] + rest;
    } else {
      DropUntilStar(prefix[1..], rest);
      assert (prefix + "*" + rest)[1..] == prefix[1..] + "*" + rest;
      assert prefix + rest == [prefix[0]] + (prefix[1..] + rest);
    }
  }

  lemma {:induction false} DropWithoutStar(pattern: string)
    requires '*' !in pattern
    ensures DropFirstStar(pattern) == pattern
  {
    if pattern != "" {
      DropWithoutStar(pattern[1..]);
    }
  }

  /** A key without special characters that the pattern matches. */
  function Instance(pattern: string): (key: string)
    ensures Literal(key) && Matches(pattern, key)
  {
    if pattern == "" then ""
    else if pattern[0] == '*' then Instance(pattern[1..])
    else
      var tail := Instance(pattern[1..]);
      var c := if pattern[0] == '?' then 'x' else pattern[0];
      assert ([c] + tail)[1..] == tail;
      [c] + tail
  }

  /** A pattern that ends in a plain character matches only keys with that last character. */
  lemma {:induction false} LastCharacter(pattern: string, key: string)
    requires pattern != "" && pattern[|pattern| - 1] != '*' && pattern[|pattern| - 1] != '?' && Matches(pattern, key)
    ensures key != "" && key[|key| - 1] == pattern[|pattern| - 1]
    decreases |pattern| + |key|
  {
    if pattern[0] == '*' {
      if Matches(pattern[1..], key) {
        LastCharacter(pattern[1..], key);
      } else {
        LastCharacter(pattern, key[1..]);
      }
    } else if |pattern| > 1 {
      LastCharacter(pattern[1..], key[1..]);
    }
  }

  lemma {:induction false} NoStarFixesLength(pattern: string, key: string)
    requires '*' !in pattern && Matches(pattern, key)
    ensures |key| == |pattern|
  {
    if pattern != "" {
      NoStarFixesLength(pattern[1..], key[1..]);
    }
  }

  lemma {:induction false} FirstStar(pattern: string) returns (prefix: string, rest: string)
    requires '*' in pattern
    ensures pattern == prefix + "*" + rest && '*' !in prefix
  {
    if pattern[0] == '*' {
      prefix, rest := "", pattern[1..];
    } else {
      prefix, rest := FirstStar(pattern[1..]);
      prefix := [pattern[0]] + prefix;
    }
  }

  ghost predicate Agrees(pattern: string) {
    forall key: string :: Matches(pattern, key) <==> StartsWith(key, DropFirstStar(pattern))
  }

  /** What the fallback deletes is matched by a literal key only if no special character is left. */
  lemma AgreementLeavesLiteral(pattern: string)
    requires Agrees(pattern)
    ensures Literal(DropFirstStar(pattern))
  {
    var key := Instance(pattern);
    var prefix := DropFirstStar(pattern);
    assert StartsWith(key, prefix);
    forall i | 0 <= i < |prefix| ensures prefix[i] != '*' && prefix[i] != '?' {
      assert prefix[i] == key[i];
    }
  }

  /** The fallback deletes the keys Redis would delete exactly for patterns of the form prefix*. */
  lemma FallbackDeletesWhatRedisDoes(pattern: string)
    ensures Agrees(pattern) <==> PrefixPattern(pattern)
  {
    if PrefixPattern(pattern) {
      var prefix: string :| Literal(prefix) && pattern == prefix + "*";
      DropUntilStar(prefix, "");
      assert prefix + "*" + "" == pattern && prefix + "" == prefix;
      forall key: string ensures Matches(pattern, key) <==> StartsWith(key, DropFirstStar(pattern)) {
        PrefixStar(prefix, key);
      }
    }
    if Agrees(pattern) {
      AgreementLeavesLiteral(pattern);
      if '*' in pattern {
        var prefix, rest := FirstStar(pattern);
        AgreementHasNothingAfterTheStar(pattern, prefix, rest);
        assert pattern == prefix + "*";
      } else {
        DropWithoutStar(pattern);
        assert Matches(pattern, pattern + "x") <==> StartsWith(pattern + "x", pattern);
        NoStarFixesLength(pattern, pattern + "x");
      }
    }
  }

  lemma AgreementHasNothingAfterTheStar(pattern: string, prefix: string, rest: string)
    requires Agrees(pattern) && pattern == prefix + "*" + rest && '*' !in prefix
    ensures rest == "" && Literal(prefix)
  {
    AgreementLeavesLiteral(pattern);
    DropUntilStar(prefix, rest);
    var kept := prefix + rest;
    assert Literal(prefix) by {
      forall i | 0 <= i < |prefix| ensures prefix[i] != '*' && prefix[i] != '?' {
        assert kept[i] == prefix[i];
      }
    }
    if rest != "" {
      var last := rest[|rest| - 1];
      assert kept[|kept| - 1] == last == pattern[|pattern| - 1];
      var other := if last == 'x' then 'y' else 'x';
      var key := kept + [other];
      assert StartsWith(key, kept);
      assert Matches(pattern, key);
      LastCharacter(pattern, key);
    }
  }

  /** Invalidating one key by its name: Redis deletes that key, the fallback every key it begins. */
  lemma ExactKeyDeletesMoreInFallback(key: string, other: string)
    requires Literal(key) && key <= other && key != other
    ensures Matches(key, key) && !Matches(key, other)
    ensures StartsWith(other, DropFirstStar(key))
  {
    DropWithoutStar(key);
    MatchesItself(key);
    if Matches(key, other) {
      NoStarFixesLength(key, other);
    }
  }

  lemma {:induction false} MatchesItself(key: string)
    requires Literal(key)
    ensures Matches(key, key)
  {
    if key != "" {
      MatchesItself(key[1..]);
    }
  }

  // ------------------------------------------------- what each side holds, in any run

  // Where a read looks.
  datatype Side = InRedis | InMemory

  function SideRead(hasRedis: bool, up: bool): Side {
    if hasRedis && up then InRedis else InMemory
  }

  /** The event takes effect for this key on this side. */
  predicate Lands<V>(hasRedis: bool, ev: Event<V>, key: string, side: Side) {
    match ev
    case Get(_, _, _) => false
    case Set(k, _, ttlSeconds, _, reply) =>
      var r := SetReply(ttlSeconds, reply);
      k == key && if side.InRedis? then hasRedis && !r.Refused? else !(hasRedis && r.Done?)
    case Invalidate(pattern, _, pages, scanned, reply) =>
      if side.InRedis? then hasRedis && scanned && !reply.Refused? && key in Flatten(pages)
      else !(hasRedis && scanned && (Flatten(pages) == [] || reply.Done?)) && StartsWith(key, DropFirstStar(pattern))
  }

  predicate IsSet<V>(evs: seq<Event<V>>, at: Option<nat>, key: string) {
    at.Some? ==> at.value < |evs| && evs[at.value].Set? && evs[at.value].key == key
  }

  /** The set of this key that landed last on this side, unless an invalidation landed after it. */
  function Landed<V>(hasRedis: bool, evs: seq<Event<V>>, key: string, side: Side): (at: Option<nat>)
    ensures IsSet(evs, at, key)
  {
    if evs == [] then None
    else
      var rest, last := evs[..|evs| - 1], evs[|evs| - 1];
      if !Lands(hasRedis, last, key, side) then Landed(hasRedis, rest, key, side)
      else if last.Set? then Some(|evs| - 1)
      else None
  }

  function EntryAt<V>(evs: seq<Event<V>>, at: Option<nat>): Option<Entry<V>>
    requires at.Some? ==> at.value < |evs| && evs[at.value].Set?
  {
    if at.None? then None
    else Some(Entry(evs[at.value].value, Deadline(evs[at.value].now, evs[at.value].ttlSeconds)))
  }

  function Shown<V>(evs: seq<Event<V>>, at: Option<nat>, now: int, side: Side): Option<V>
    requires at.Some? ==> at.value < |evs| && evs[at.value].Set?
  {
    if side.InRedis? then RedisValue(EntryAt(evs, at), now) else FallbackValue(EntryAt(evs, at), now)
  }

  lemma RedisLandStep<V>(s: State<V>, evs: seq<Event<V>>, ev: Event<V>, key: string)
    requires Lookup(s.redis, key) == EntryAt(evs, Landed(s.hasRedis, evs, key, InRedis))
    ensures Lookup(Apply(s, ev).redis, key) == EntryAt(evs + [ev], Landed(s.hasRedis, evs + [ev], key, InRedis))
  {
    assert (evs + [ev])[..|evs|] == evs;
    hide Flatten, DropFirstStar;
  }

  lemma {:induction false} RedisHolds<V>(hasRedis: bool, evs: seq<Event<V>>, key: string)
    ensures Lookup(Run(Init(hasRedis), evs).redis, key) == EntryAt(evs, Landed(hasRedis, evs, key, InRedis))
  {
    if evs != [] {
      var rest, last := evs[..|evs| - 1], evs[|evs| - 1];
      RedisHolds(hasRedis, rest, key);
      RunKeepsRedis(hasRedis, rest);
      assert evs == rest + [last];
      RedisLandStep(Run(Init(hasRedis), rest), rest, last, key);
    }
  }

  ghost predicate ReadBy<V>(evs: seq<Event<V>>, now: int) {
    forall i :: 0 <= i < |evs| && evs[i].Get? ==> evs[i].now <= now
  }

  /** The fallback has the entry, except that a read may have removed it once expired. */
  ghost predicate HeldInMemory<V>(m: map<string, Entry<V>>, key: string, e: Option<Entry<V>>, now: int) {
    Lookup(m, key) == e || (key !in m && e.Some? && e.value.expiry != 0 && e.value.expiry < now)
  }

  lemma MemoryLandStep<V>(s: State<V>, evs: seq<Event<V>>, ev: Event<V>, key: string, now: int)
    requires HeldInMemory(s.fallback, key, EntryAt(evs, Landed(s.hasRedis, evs, key, InMemory)), now)
    requires ev.Get? ==> ev.now <= now
    ensures HeldInMemory(Apply(s, ev).fallback, key,
                         EntryAt(evs + [ev], Landed(s.hasRedis, evs + [ev], key, InMemory)), now)
  {
    assert (evs + [ev])[..|evs|] == evs;
    hide Flatten, DropFirstStar;
  }

  lemma {:induction false} MemoryHolds<V>(hasRedis: bool, evs: seq<Event<V>>, key: string, now: int)
    requires ReadBy(evs, now)
    ensures HeldInMemory(Run(Init(hasRedis), evs).fallback, key,
                         EntryAt(evs, Landed(hasRedis, evs, key, InMemory)), now)
  {
    if evs != [] {
      var rest, last := evs[..|evs| - 1], evs[|evs| - 1];
      MemoryHolds(hasRedis, rest, key, now);
      RunKeepsRedis(hasRedis, rest);
      assert evs == rest + [last];
      MemoryLandStep(Run(Init(hasRedis), rest), rest, last, key, now);
    }
  }

  /**
   For every run, every pattern of failures and every pattern string: an answer is the value that
   landed last on the side that is read, until it expires.
   */
  lemma {:induction false} AnswerIsWhatLanded<V>(hasRedis: bool, evs: seq<Event<V>>, key: string, now: int, up: bool)
    requires ReadBy(evs, now)
    ensures var side := SideRead(hasRedis, up);
            Answer(Run(Init(hasRedis), evs), key, now, up) == Shown(evs, Landed(hasRedis, evs, key, side), now, side)
  {
    RunKeepsRedis(hasRedis, evs);
    RedisHolds(hasRedis, evs, key);
    MemoryHolds(hasRedis, evs, key, now);
    hide Run, Landed;
  }

  /** Nothing that came after the i-th event took effect for this key on this side. */
  ghost predicate Untouched<V>(hasRedis: bool, evs: seq<Event<V>>, i: nat, key: string, side: Side) {
    forall j :: i < j < |evs| ==> !Lands(hasRedis, evs[j], key, side)
  }

  /** The i-th event is a set of this key that took effect on this side. */
  predicate SetLands<V>(hasRedis: bool, evs: seq<Event<V>>, i: nat, key: string, side: Side) {
    && i < |evs| && evs[i].Set? && evs[i].key == key
    && if side.InRedis? then hasRedis && evs[i].ttlSeconds >= 1 && !evs[i].reply.Refused?
       else !hasRedis || evs[i].ttlSeconds < 1 || !evs[i].reply.Done?
  }

  lemma {:induction false} UntouchedSetStands<V>(hasRedis: bool, evs: seq<Event<V>>, i: nat, key: string, side: Side)
    requires SetLands(hasRedis, evs, i, key, side) && Untouched(hasRedis, evs, i, key, side)
    ensures Landed(hasRedis, evs, key, side) == Some(i)
    decreases |evs|
  {
    hide Flatten, DropFirstStar;
    if i < |evs| - 1 {
      var rest := evs[..|evs| - 1];
      assert forall j :: i < j < |rest| ==> rest[j] == evs[j];
      UntouchedSetStands(hasRedis, rest, i, key, side);
    }
  }

  /**
   A value set with a time to live of t seconds is answered for 1000 * t milliseconds and no longer,
   if the set took effect on the side that is read and nothing took effect there for the key since.
   A fallback entry whose expiry falls on the epoch stays.
   */
  lemma {:induction false} AnsweredUntilExpiry<V>(hasRedis: bool, evs: seq<Event<V>>, i: nat, key: string, now: int,
      up: bool)
    requires ReadBy(evs, now) && SetLands(hasRedis, evs, i, key, SideRead(hasRedis, up))
    requires Untouched(hasRedis, evs, i, key, SideRead(hasRedis, up))
    ensures var until := evs[i].now + 1000 * evs[i].ttlSeconds;
            Answer(Run(Init(hasRedis), evs), key, now, up) ==
            if now <= until || (until == 0 && !(hasRedis && up)) then Some(evs[i].value) else None
  {
    hide Run, Landed, Untouched;
    AnswerIsWhatLanded(hasRedis, evs, key, now, up);
    UntouchedSetStands(hasRedis, evs, i, key, SideRead(hasRedis, up));
  }

  // ------------------------------------------------------------- the expiring map

  /** The set of the key that was made last, unless an invalidation whose pattern matches came after it. */
  function Written<V>(evs: seq<Event<V>>, key: string): (at: Option<nat>)
    ensures IsSet(evs, at, key)
  {
    if evs == [] then None
    else
      var last := evs[|evs| - 1];
      if last.Set? && last.key == key then Some(|evs| - 1)
      else if last.Invalidate? && Matches(last.pattern, key) then None
      else Written(evs[..|evs| - 1], key)
  }

  /** The plain expiring map, read off the history: the last value set and not invalidated since. */
  function LastSet<V>(evs: seq<Event<V>>, key: string): Option<Entry<V>> {
    EntryAt(evs, Written(evs, key))
  }

  /** The number of the set that is shown, if it has not expired. */
  function Visible<V>(evs: seq<Event<V>>, at: Option<nat>, now: int, side: Side): Option<nat>
    requires at.Some? ==> at.value < |evs| && evs[at.value].Set?
  {
    if Shown(evs, at, now, side).Some? then at else None
  }

  /** The sets of the key can be told apart by their values. */
  ghost predicate Distinct<V>(evs: seq<Event<V>>, key: string) {
    forall i, j :: 0 <= i < j < |evs| && evs[i].Set? && evs[j].Set? && evs[i].key == key && evs[j].key == key ==>
      evs[i].value != evs[j].value
  }

  /**
   When the cache is the expiring map although Redis comes and goes: the answer is the map's if what
   landed last on the side that is read is what was written last, expired sets aside; and only then,
   if the values written can be told apart.
   */
  lemma {:induction false} LastWriteIsReadIff<V>(hasRedis: bool, evs: seq<Event<V>>, key: string, now: int, up: bool)
    requires ReadBy(evs, now)
    ensures var side := SideRead(hasRedis, up);
            var same := Visible(evs, Landed(hasRedis, evs, key, side), now, side) ==
                        Visible(evs, Written(evs, key), now, InRedis);
            var answer := Answer(Run(Init(hasRedis), evs), key, now, up);
            && (same ==> answer == RedisValue(LastSet(evs, key), now))
            && (Distinct(evs, key) ==> (same <==> answer == RedisValue(LastSet(evs, key), now)))
  {
    AnswerIsWhatLanded(hasRedis, evs, key, now, up);
    hide Run, Landed, Written;
  }

  /** In particular, when the last write of the key landed on the side that is read. */
  lemma {:induction false} LandedWriteIsRead<V>(hasRedis: bool, evs: seq<Event<V>>, key: string, now: int, up: bool)
    requires ReadBy(evs, now) && Landed(hasRedis, evs, key, SideRead(hasRedis, up)) == Written(evs, key)
    requires var e := LastSet(evs, key); e.Some? ==> e.value.expiry != 0
    ensures Answer(Run(Init(hasRedis), evs), key, now, up) == RedisValue(LastSet(evs, key), now)
  {
    AnswerIsWhatLanded(hasRedis, evs, key, now, up);
    hide Run, Landed, Written;
  }

  /** Every pattern is a prefix followed by a star; no expiry falls on the epoch. */
  ghost predicate Plain<V>(evs: seq<Event<V>>) {
    && (forall i :: 0 <= i < |evs| && evs[i].Invalidate? ==> PrefixPattern(evs[i].pattern))
    && (forall i :: 0 <= i < |evs| && evs[i].Set? ==> evs[i].now + 1000 * evs[i].ttlSeconds != 0)
  }

  /** Without Redis every write lands in the fallback, and nothing else does. */
  lemma {:induction false} WithoutRedisAllLands<V>(evs: seq<Event<V>>, key: string)
    requires Plain(evs)
    ensures Landed(false, evs, key, InMemory) == Written(evs, key)
  {
    if evs != [] {
      var rest, last := evs[..|evs| - 1], evs[|evs| - 1];
      WithoutRedisAllLands(rest, key);
      if last.Invalidate? {
        FallbackDeletesWhatRedisDoes(last.pattern);
        assert Matches(last.pattern, key) <==> StartsWith(key, DropFirstStar(last.pattern));
      }
    }
  }

  /** Without Redis, on a clock that does not go back, the cache is the plain expiring map. */
  lemma {:induction false} WithoutRedisIsExpiringMap<V>(evs: seq<Event<V>>, key: string, now: int, up: bool)
    requires Plain(evs) && ReadBy(evs, now)
    ensures Answer(Run(Init(false), evs), key, now, up) == RedisValue(LastSet(evs, key), now)
  {
    WithoutRedisAllLands(evs, key);
    LandedWriteIsRead(false, evs, key, now, up);
  }

  /**
   Every command reached Redis. A scan returns only keys its pattern matches, and all of those that
   have not expired; an expired key may be returned or not.
   */
  ghost predicate AllReachRedis<V>(evs: seq<Event<V>>) {
    forall i :: 0 <= i < |evs| ==> ReachesRedis(Run(Init(true), evs[..i]).redis, evs[i])
  }

  ghost predicate ReachesRedis<V>(redis: map<string, Entry<V>>, ev: Event<V>) {
    match ev
    case Get(_, _, up) => up
    case Set(_, _, ttlSeconds, _, reply) => ttlSeconds >= 1 && reply.Done?
    case Invalidate(pattern, now, pages, scanned, reply) =>
      && scanned && reply.Done?
      && (forall key :: key in Flatten(pages) ==> Matches(pattern, key))
      && (forall key :: key in redis && now <= redis[key].expiry && Matches(pattern, key) ==> key in Flatten(pages))
  }

  /** The clock of the invalidations has reached `now` at most. */
  ghost predicate ClearedBy<V>(evs: seq<Event<V>>, now: int) {
    forall i :: 0 <= i < |evs| && evs[i].Invalidate? ==> evs[i].now <= now
  }

  /** Redis holds the last set of each key; what an invalidation left over had already expired. */
  ghost predicate RedisMirrors<V>(evs: seq<Event<V>>, m: map<string, Entry<V>>, key: string, now: int) {
    || Lookup(m, key) == LastSet(evs, key)
    || (LastSet(evs, key).None? && key in m && m[key].expiry < now)
  }

  lemma RedisStep<V>(s: State<V>, evs: seq<Event<V>>, ev: Event<V>, key: string, now: int)
    requires s.hasRedis && ReachesRedis(s.redis, ev) && RedisMirrors(evs, s.redis, key, now)
    requires ev.Invalidate? ==> ev.now <= now
    ensures RedisMirrors(evs + [ev], Apply(s, ev).redis, key, now)
  {
    assert (evs + [ev])[..|evs|] == evs;
    hide Flatten, Matches;
  }

  lemma ReachedBefore<V>(evs: seq<Event<V>>)
    requires evs != [] && AllReachRedis(evs)
    ensures AllReachRedis(evs[..|evs| - 1]) && ReachesRedis(Run(Init(true), evs[..|evs| - 1]).redis, evs[|evs| - 1])
  {
    hide ReachesRedis, Run;
    var rest := evs[..|evs| - 1];
    forall i | 0 <= i < |rest| ensures ReachesRedis(Run(Init(true), rest[..i]).redis, rest[i]) {
      assert rest[..i] == evs[..i] && rest[i] == evs[i];
    }
  }

  lemma NothingMirrors<V>(key: string, now: int)
    ensures RedisMirrors<V>([], map[], key, now)
  {
  }

  lemma {:induction false} RedisMirrorsHistory<V>(evs: seq<Event<V>>, key: string, now: int)
    requires AllReachRedis(evs) && ClearedBy(evs, now)
    ensures RedisMirrors(evs, Run(Init(true), evs).redis, key, now)
  {
    hide AllReachRedis, ReachesRedis, RedisMirrors, Apply;
    if evs == [] {
      NothingMirrors<V>(key, now);
    } else {
      var rest, last := evs[..|evs| - 1], evs[|evs| - 1];
      ReachedBefore(evs);
      RedisMirrorsHistory(rest, key, now);
      RunKeepsRedis(true, rest);
      RedisStep(Run(Init(true), rest), rest, last, key, now);
      assert evs == rest + [last];
    }
  }

  /**
   With a Redis that always answers, on a clock that does not go back, the cache is the same map,
   for every pattern.
   */
  lemma {:induction false} WithRedisIsExpiringMap<V>(evs: seq<Event<V>>, key: string, now: int)
    requires AllReachRedis(evs) && ClearedBy(evs, now)
    ensures Answer(Run(Init(true), evs), key, now, true) == RedisValue(LastSet(evs, key), now)
  {
    RedisMirrorsHistory(evs, key, now);
    RunKeepsRedis(true, evs);
  }

  /** When Redis comes and goes, an older value and an invalidated value come back. */
  lemma FlappingRedisForgetsOrder()
    ensures exists evs: seq<Event<int>> ::
              LastSet(evs, "k") == Some(Entry(2, 61000)) && Answer(Run(Init(true), evs), "k", 1000, false) == Some(1)
    ensures exists evs: seq<Event<int>> ::
              LastSet(evs, "k") == None && Answer(Run(Init(true), evs), "k", 1000, true) == Some(1)
  {
    var a, b := Set("k", 1, 60, 1000, Refused), Set("k", 2, 60, 1000, Done);
    var c, d := Set("k", 1, 60, 1000, Done), Invalidate("k*", 1000, [], false, Refused);
    RunTwo(Init(true), a, b);
    RunTwo(Init(true), c, d);
    assert LastSet([a, b], "k") == Some(Entry(2, 61000));
    assert Answer(Run(Init(true), [a, b]), "k", 1000, false) == Some(1);
    PrefixStar("k", "k");
    assert "k" + "*" == "k*";
    assert LastSet([c, d], "k") == None;
    assert Answer(Run(Init(true), [c, d]), "k", 1000, true) == Some(1);
  }

  lemma RunTwo<V>(s: State<V>, a: Event<V>, b: Event<V>)
    ensures Run(s, [a, b]) == Apply(Apply(s, a), b)
  {
    assert [a, b][..1] == [a] && [a][..0] == [];
    assert Run(s, [a]) == Apply(Run(s, []), a);
  }
}

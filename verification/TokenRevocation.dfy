/**
 Revocation of access tokens through expiring Redis keys: a token issued up to a revocation is
 refused as long as the key lives, and by its own expiry afterwards (`iat` and `exp`, sections
 4.1.6 and 4.1.4 of RFC 7519). The clock counts milliseconds; tokens and cutoffs count seconds.
 */
module TokenRevocation {
  import opened Wrappers

  // ------------------------------------------------------------ the configured lifetime

  const DEFAULT_EXPIRATION: string := "15m"
  const FALLBACK_TTL: nat := 900

  predicate IsDigit(c: char) {
    '0' <= c <= '9'
  }

  predicate IsUnit(c: char) {
    c == 's' || c == 'm' || c == 'h' || c == 'd'
  }

  function Multiplier(unit: char): nat {
    if unit == 's' then 1 else if unit == 'm' then 60 else if unit == 'h' then 3600 else 86400
  }

  /** A number and a unit, and nothing else. */
  predicate IsDuration(raw: string) {
    |raw| >= 2 && IsUnit(raw[|raw| - 1]) && forall i :: 0 <= i < |raw| - 1 ==> IsDigit(raw[i])
  }

  function Number(digits: string): nat
    requires forall i :: 0 <= i < |digits| ==> IsDigit(digits[i])
  {
    if digits == "" then 0
    else
      assert IsDigit(digits[|digits| - 1]);
      10 * Number(digits[..|digits| - 1]) + (digits[|digits| - 1] as int - '0' as int)
  }

  function Decimal(n: nat): (digits: string)
    ensures |digits| >= 1 && forall i :: 0 <= i < |digits| ==> IsDigit(digits[i])
  {
    var last := [('0' as int + n % 10) as char];
    if n < 10 then last else Decimal(n / 10) + last
  }

  lemma NumberSnoc(digits: string, d: nat)
    requires d < 10 && forall i :: 0 <= i < |digits| ==> IsDigit(digits[i])
    ensures Number(digits + [('0' as int + d) as char]) == d + if digits == "" then 0 else 10 * Number(digits)
  {
    var more := digits + [('0' as int + d) as char];
    assert more[..|more| - 1] == digits;
  }

  lemma {:induction false} NumberOfDecimal(n: nat)
    ensures Number(Decimal(n)) == n
  {
    hide Number;
    if n < 10 {
      assert Decimal(n) == "" + [('0' as int + n) as char];
      NumberSnoc("", n);
    } else {
      NumberOfDecimal(n / 10);
      NumberSnoc(Decimal(n / 10), n % 10);
    }
  }

  /** accessTokenTtlSeconds: an absent or empty setting is the default, a malformed one is 15 minutes. */
  method AccessTokenTtlSeconds(setting: Option<string>) returns (ttl: nat)
    ensures ttl == Ttl(setting)
  {
    var raw := if setting.None? || setting.value == "" then DEFAULT_EXPIRATION else setting.value;
    if |raw| < 2 || !IsUnit(raw[|raw| - 1]) {
      return 900;
    }
    var value: nat := 0;
    var i := 0;
    while i < |raw| - 1
      invariant i <= |raw| - 1
      invariant forall k :: 0 <= k < i ==> IsDigit(raw[k])
      invariant value == Number(raw[..i])
    {
      if !IsDigit(raw[i]) {
        return 900;
      }
      assert raw[..i + 1][..i] == raw[..i];
      value := 10 * value + (raw[i] as int - '0' as int);
      i := i + 1;
    }
    ttl := value * Multiplier(raw[|raw| - 1]);
  }

  function Raw(setting: Option<string>): string {
    if setting.None? || setting.value == "" then DEFAULT_EXPIRATION else setting.value
  }

  function Ttl(setting: Option<string>): nat {
    var raw := Raw(setting);
    if IsDuration(raw) then Number(raw[..|raw| - 1]) * Multiplier(raw[|raw| - 1]) else FALLBACK_TTL
  }

  function Zeros(n: nat): string {
    seq(n, i => '0')
  }

  lemma {:induction false} LeadingZeros(zeros: nat, digits: string)
    requires forall i :: 0 <= i < |digits| ==> IsDigit(digits[i])
    ensures Number(Zeros(zeros) + digits) == Number(digits)
  {
    var text := Zeros(zeros) + digits;
    if digits != "" {
      assert text[..|text| - 1] == Zeros(zeros) + digits[..|digits| - 1];
      LeadingZeros(zeros, digits[..|digits| - 1]);
    } else if zeros > 0 {
      assert text[..|text| - 1] == Zeros(zeros - 1) + digits;
      LeadingZeros(zeros - 1, digits);
    }
  }

  /**
   Writing a duration, with leading zeros or without, and reading it back in seconds, minutes, hours
   or days; anything that is not a duration, or is missing, reads as 15 minutes.
   */
  lemma DurationsAreRead(zeros: nat, n: nat, raw: string)
    ensures Ttl(Some(Zeros(zeros) + Decimal(n) + "s")) == n
    ensures Ttl(Some(Zeros(zeros) + Decimal(n) + "m")) == 60 * n
    ensures Ttl(Some(Zeros(zeros) + Decimal(n) + "h")) == 3600 * n
    ensures Ttl(Some(Zeros(zeros) + Decimal(n) + "d")) == 86400 * n
    ensures |raw| < 2 || raw[|raw| - 1] !in "smhd" || (exists i :: 0 <= i < |raw| - 1 && !('0' <= raw[i] <= '9')) ==>
              Ttl(Some(raw)) == 900
    ensures Ttl(None) == 900
  {
    hide Ttl, Number, Decimal, Zeros, IsDuration;
    ReadsAs(zeros, n, 's');
    ReadsAs(zeros, n, 'm');
    ReadsAs(zeros, n, 'h');
    ReadsAs(zeros, n, 'd');
    MalformedReads(raw);
    DefaultReads();
  }

  lemma ReadsAs(zeros: nat, n: nat, unit: char)
    requires IsUnit(unit)
    ensures Ttl(Some(Zeros(zeros) + Decimal(n) + [unit])) == n * Multiplier(unit)
  {
    hide Ttl, IsUnit, Multiplier, Number;
    NumberOfDecimal(n);
    LeadingZeros(zeros, Decimal(n));
    DigitsAreRead(Zeros(zeros) + Decimal(n), unit);
  }

  lemma DigitsAreRead(digits: string, unit: char)
    requires IsUnit(unit) && digits != "" && forall i :: 0 <= i < |digits| ==> IsDigit(digits[i])
    ensures Ttl(Some(digits + [unit])) == Number(digits) * Multiplier(unit)
  {
    hide Number, IsUnit, Multiplier;
    var text := digits + [unit];
    assert text[..|text| - 1] == digits;
  }

  lemma MalformedReads(raw: string)
    ensures |raw| < 2 || raw[|raw| - 1] !in "smhd" || (exists i :: 0 <= i < |raw| - 1 && !('0' <= raw[i] <= '9')) ==>
              Ttl(Some(raw)) == 900
  {
    var units := "smhd";
    assert units[0] == 's' && units[1] == 'm' && units[2] == 'h' && units[3] == 'd';
    if raw == "" {
      DefaultReads();
    }
  }

  lemma DefaultReads()
    ensures Ttl(None) == Ttl(Some("")) == 900
  {
    assert DEFAULT_EXPIRATION[..2] == "15";
    assert "15"[..1] == "1" && "1"[..0] == "";
    assert Number("1") == 1;
    assert Number("15") == 15;
  }

  // ------------------------------------------------------------------- keys and tokens

  datatype Subject = User(id: string) | Session(id: string)

  // A revocation key: its value, and the last millisecond at which it is seen.
  datatype Key = Key(cutoff: int, expiry: int)

  // `session` is absent from tokens that carry no session id.
  datatype Token = Token(user: string, session: Option<string>, iat: int, exp: int)

  // `applied` says whether the SET took effect; an error is swallowed either way.
  datatype Revocation = Revocation(subject: Subject, ttlSeconds: int, now: int, applied: bool)

  type Keys = map<Subject, Key>

  function Seconds(now: int): int {
    now / 1000
  }

  function AtLeastOne(ttlSeconds: int): int {
    if ttlSeconds < 1 then 1 else ttlSeconds
  }

  function Revoke(keys: Keys, r: Revocation): Keys {
    if !r.applied then keys
    else keys[r.subject := Key(Seconds(r.now) + 1, r.now + AtLeastOne(r.ttlSeconds) * 1000)]
  }

  function Run(rs: seq<Revocation>): Keys {
    if rs == [] then map[] else Revoke(Run(rs[..|rs| - 1]), rs[|rs| - 1])
  }

  function Issue(user: string, session: Option<string>, lifetime: nat, now: int): Token {
    Token(user, session, Seconds(now), Seconds(now) + lifetime)
  }

  predicate RevokedBy(keys: Keys, subject: Subject, iat: int, now: int) {
    subject in keys && now <= keys[subject].expiry && iat < keys[subject].cutoff
  }

  predicate Revoked(keys: Keys, token: Token, now: int) {
    || RevokedBy(keys, User(token.user), token.iat, now)
    || (token.session.Some? && RevokedBy(keys, Session(token.session.value), token.iat, now))
  }

  /** The check of each request; `up` says whether Redis answers, an error of which refuses the request. */
  predicate Accepted(keys: Keys, token: Token, now: int, up: bool) {
    && Seconds(now) < token.exp
    && (token.iat == 0 || (up && !Revoked(keys, token, now)))
  }

  class Revoker {
    var hasRedis: bool
    var keys: Keys

    constructor (hasRedis: bool)
      ensures this.hasRedis == hasRedis && keys == map[]
    {
      this.hasRedis, keys := hasRedis, map[];
    }

    /** revokeUserAccessTokens */
    method RevokeUserAccessTokens(userId: string, ttlSeconds: int, now: int, applied: bool)
      modifies this`keys
      ensures keys == Revoke(old(keys), Revocation(User(userId), ttlSeconds, now, applied && hasRedis))
      ensures !(applied && hasRedis) ==> keys == old(keys)
      ensures applied && hasRedis && ttlSeconds >= 1 ==>
                keys == old(keys)[User(userId) := Key(now / 1000 + 1, now + 1000 * ttlSeconds)]
      ensures applied && hasRedis && ttlSeconds < 1 ==>
                keys == old(keys)[User(userId) := Key(now / 1000 + 1, now + 1000)]
    {
      if !hasRedis {
        return;
      }
      var cutoff := now / 1000 + 1;
      if applied {
        keys := keys[User(userId) := Key(cutoff, now + (if ttlSeconds < 1 then 1 else ttlSeconds) * 1000)];
      }
    }

    /** revokeSessionAccessTokens */
    method RevokeSessionAccessTokens(sessionId: string, ttlSeconds: int, now: int, applied: bool)
      modifies this`keys
      ensures keys == Revoke(old(keys), Revocation(Session(sessionId), ttlSeconds, now, applied && hasRedis))
      ensures !(applied && hasRedis) ==> keys == old(keys)
      ensures applied && hasRedis && ttlSeconds >= 1 ==>
                keys == old(keys)[Session(sessionId) := Key(now / 1000 + 1, now + 1000 * ttlSeconds)]
      ensures applied && hasRedis && ttlSeconds < 1 ==>
                keys == old(keys)[Session(sessionId) := Key(now / 1000 + 1, now + 1000)]
    {
      if !hasRedis {
        return;
      }
      var cutoff := now / 1000 + 1;
      if applied {
        keys := keys[Session(sessionId) := Key(cutoff, now + (if ttlSeconds < 1 then 1 else ttlSeconds) * 1000)];
      }
    }
  }

  // ------------------------------------------------------------------------- the cover

  /** The clock does not go back over the revocations. */
  ghost predicate InOrder(rs: seq<Revocation>) {
    forall i, j :: 0 <= i < j < |rs| ==> rs[i].now <= rs[j].now
  }

  /** Every revocation of the subject asks for a key that lives at least as long as a token. */
  ghost predicate LongEnough(rs: seq<Revocation>, subject: Subject, lifetime: nat) {
    forall i :: 0 <= i < |rs| && rs[i].subject == subject ==> lifetime <= AtLeastOne(rs[i].ttlSeconds)
  }

  /** The key of the subject stops tokens issued up to `since`, and lives past their expiry. */
  ghost predicate Covers(keys: Keys, subject: Subject, since: int, lifetime: nat) {
    && subject in keys
    && keys[subject].cutoff > Seconds(since)
    && keys[subject].expiry >= since + lifetime * 1000
  }

  lemma {:induction false} RevocationCovers(rs: seq<Revocation>, i: nat, lifetime: nat)
    requires i < |rs| && rs[i].applied && InOrder(rs) && LongEnough(rs, rs[i].subject, lifetime)
    ensures Covers(Run(rs), rs[i].subject, rs[i].now, lifetime)
    decreases |rs|
  {
    var rest, last := rs[..|rs| - 1], rs[|rs| - 1];
    if i < |rest| {
      RevocationCovers(rest, i, lifetime);
      assert rs[i].now <= last.now;
    }
  }

  lemma SecondsAreMonotone(a: int, b: int)
    requires a <= b
    ensures Seconds(a) <= Seconds(b)
  {
  }

  // A setting is read twice: here, and by the signer of the tokens, which accepts more forms. The
  // signer is known only to agree on a number and one of the four units.
  predicate SignedFor(setting: Option<string>, lifetime: nat) {
    IsDuration(Raw(setting)) ==> lifetime == Ttl(setting)
  }

  /**
   For which settings the keys live as long as the tokens: every duration that is read here, and
   any other form that the signer reads as 15 minutes or less.
   */
  lemma SettingIsLongEnoughIff(setting: Option<string>, lifetime: nat, rs: seq<Revocation>, subject: Subject)
    requires SignedFor(setting, lifetime)
    requires forall i :: 0 <= i < |rs| && rs[i].subject == subject ==> rs[i].ttlSeconds == Ttl(setting)
    requires exists i :: 0 <= i < |rs| && rs[i].subject == subject
    ensures LongEnough(rs, subject, lifetime) <==> IsDuration(Raw(setting)) || lifetime <= FALLBACK_TTL
  {
    hide IsDuration, Number;
    var i :| 0 <= i < |rs| && rs[i].subject == subject;
    assert LongEnough(rs, subject, lifetime) <==> lifetime <= AtLeastOne(Ttl(setting)) by {
      assert LongEnough(rs, subject, lifetime) ==> lifetime <= AtLeastOne(rs[i].ttlSeconds);
    }
  }

  /** A week, in a form this reader does not know, reads as 15 minutes. */
  lemma WeekReadsAsQuarterHour()
    ensures Ttl(Some("1w")) == 900 && !IsDuration(Raw(Some("1w")))
  {
    assert Raw(Some("1w"))[1] == 'w';
  }

  /** The key refuses the token while it lives; when it has gone, the token has expired. */
  lemma CoveredTokenIsRefused(keys: Keys, subject: Subject, since: int, token: Token, lifetime: nat, issued: int,
      now: int, up: bool)
    requires Covers(keys, subject, since, lifetime)
    requires subject == User(token.user) || (token.session.Some? && subject == Session(token.session.value))
    requires token.iat == Seconds(issued) && token.exp == token.iat + lifetime && 1000 <= issued <= since
    ensures !Accepted(keys, token, now, up)
  {
    SecondsAreMonotone(issued, since);
    assert token.iat != 0;
    if now > keys[subject].expiry {
      SecondsAreMonotone(issued + lifetime * 1000, now);
      assert Seconds(issued + lifetime * 1000) == Seconds(issued) + lifetime;
    }
  }

  /**
   A token issued up to a revocation of its user or of its session is never accepted again: not
   while the key lives, not after it expires, and not after any further revocations.
   */
  lemma {:induction false} RevokedTokensStayRevoked(rs: seq<Revocation>, i: nat, user: string, session: Option<string>,
      lifetime: nat, issued: int, now: int, up: bool)
    requires i < |rs| && rs[i].applied && InOrder(rs) && LongEnough(rs, rs[i].subject, lifetime)
    requires rs[i].subject == User(user) || (session.Some? && rs[i].subject == Session(session.value))
    requires 1000 <= issued <= rs[i].now
    ensures !Accepted(Run(rs), Issue(user, session, lifetime, issued), now, up)
  {
    RevocationCovers(rs, i, lifetime);
    CoveredTokenIsRefused(Run(rs), rs[i].subject, rs[i].now, Issue(user, session, lifetime, issued), lifetime, issued,
      now, up);
  }

  lemma {:induction false} CutoffsComeFromRevocations(rs: seq<Revocation>, subject: Subject)
    requires subject in Run(rs)
    ensures exists i ::
              && 0 <= i < |rs| && rs[i].applied && rs[i].subject == subject
              && Run(rs)[subject].cutoff == Seconds(rs[i].now) + 1
  {
    if rs != [] {
      var rest, last := rs[..|rs| - 1], rs[|rs| - 1];
      if last.applied && last.subject == subject {
        assert rs[|rs| - 1].applied;
      } else {
        CutoffsComeFromRevocations(rest, subject);
        var i :| 0 <= i < |rest| && rest[i].applied && rest[i].subject == subject &&
          Run(rest)[subject].cutoff == Seconds(rest[i].now) + 1;
        assert rs[i] == rest[i];
      }
    }
  }

  /** Tokens issued from the second after every revocation of their user and session on are not refused for it. */
  lemma {:induction false} LaterTokensAreAccepted(rs: seq<Revocation>, user: string, session: Option<string>,
      lifetime: nat, issued: int, now: int)
    requires forall i :: 0 <= i < |rs| && rs[i].applied
                         && (rs[i].subject == User(user) || (session.Some? && rs[i].subject == Session(session.value)))
                         ==> Seconds(rs[i].now) < Seconds(issued)
    ensures Accepted(Run(rs), Issue(user, session, lifetime, issued), now, true) <==>
        Seconds(now) < Seconds(issued) + lifetime
  {
    if User(user) in Run(rs) {
      CutoffsComeFromRevocations(rs, User(user));
    }
    if session.Some? && Session(session.value) in Run(rs) {
      CutoffsComeFromRevocations(rs, Session(session.value));
    }
  }

  // ------------------------------------------------------------ when the cover is whole

  /** One revocation: no token issued up to it is accepted at any time from it on. */
  ghost predicate CoversWholeLife(ttlSeconds: int, lifetime: nat) {
    forall user: string, revoked: int, issued: int, now: int | 1000 <= issued <= revoked <= now ::
      !Accepted(Run([Revocation(User(user), ttlSeconds, revoked, true)]), Issue(user, None, lifetime, issued), now,
        true)
  }

  /** The key must live as long as the tokens, and that is enough; at least one second is kept in any case. */
  lemma CoverIsWholeIffKeyOutlivesToken(ttlSeconds: int, lifetime: nat)
    ensures CoversWholeLife(ttlSeconds, lifetime) <==> lifetime <= AtLeastOne(ttlSeconds)
  {
    if lifetime <= AtLeastOne(ttlSeconds) {
      forall user: string, revoked: int, issued: int, now: int | 1000 <= issued <= revoked <= now
        ensures !Accepted(Run([Revocation(User(user), ttlSeconds, revoked, true)]), Issue(user, None, lifetime, issued),
            now, true)
      {
        RevokedTokensStayRevoked([Revocation(User(user), ttlSeconds, revoked, true)], 0, user, None, lifetime, issued,
          now, true);
      }
    } else {
      var r := Revocation(User("u"), ttlSeconds, 1000, true);
      var now := 1001 + AtLeastOne(ttlSeconds) * 1000;
      assert [r][..0] == [];
      assert Run([r]) == Revoke(map[], r);
      assert Seconds(now) == 1 + AtLeastOne(ttlSeconds);
      assert Accepted(Run([r]), Issue("u", None, lifetime, 1000), now, true);
      assert !CoversWholeLife(ttlSeconds, lifetime);
    }
  }

  /** The key of the user's last revocation that took effect. */
  function KeyOf(r: Revocation): Key {
    Key(Seconds(r.now) + 1, r.now + AtLeastOne(r.ttlSeconds) * 1000)
  }

  predicate LastFor(rs: seq<Revocation>, i: nat) {
    && i < |rs| && rs[i].applied
    && forall j :: i < j < |rs| && rs[j].applied ==> rs[j].subject != rs[i].subject
  }

  lemma {:induction false} LastKeyStands(rs: seq<Revocation>, i: nat)
    requires LastFor(rs, i)
    ensures rs[i].subject in Run(rs) && Run(rs)[rs[i].subject] == KeyOf(rs[i])
    decreases |rs|
  {
    if i < |rs| - 1 {
      LastKeyStands(rs[..|rs| - 1], i);
    }
  }

  lemma {:induction false} LastExists(rs: seq<Revocation>, subject: Subject) returns (i: nat)
    requires subject in Run(rs)
    ensures LastFor(rs, i) && rs[i].subject == subject
  {
    var last := |rs| - 1;
    if rs[last].applied && rs[last].subject == subject {
      i := last;
    } else {
      i := LastExists(rs[..last], subject);
    }
  }

  /**
   The last revocation of the subject that took effect came in the token's second or later, and its
   key is still there.
   */
  ghost predicate StoppedBy(rs: seq<Revocation>, subject: Subject, iat: int, now: int) {
    exists i: nat :: LastFor(rs, i) && rs[i].subject == subject && iat <= rs[i].now / 1000 &&
                     now <= rs[i].now + 1000 * (if rs[i].ttlSeconds < 1 then 1 else rs[i].ttlSeconds)
  }

  lemma StoppedIffRevoked(rs: seq<Revocation>, subject: Subject, iat: int, now: int)
    ensures RevokedBy(Run(rs), subject, iat, now) <==> StoppedBy(rs, subject, iat, now)
  {
    hide Run;
    if subject in Run(rs) {
      var i := LastExists(rs, subject);
      LastKeyStands(rs, i);
      assert forall j: nat :: LastFor(rs, j) && rs[j].subject == subject ==> j == i;
    } else if i: nat :| LastFor(rs, i) && rs[i].subject == subject {
      LastKeyStands(rs, i);
    }
  }

  /**
   Which requests pass, after any revocations: those with a token that has not expired and, unless
   it was issued at the epoch, that is stopped neither for its user nor for its session, if Redis
   answers.
   */
  lemma AcceptedIff(rs: seq<Revocation>, token: Token, now: int, up: bool)
    ensures Accepted(Run(rs), token, now, up) <==>
            && now / 1000 < token.exp
            && (token.iat != 0 ==>
                  && up
                  && !StoppedBy(rs, User(token.user), token.iat, now)
                  && (token.session.Some? ==> !StoppedBy(rs, Session(token.session.value), token.iat, now)))
  {
    hide Run, StoppedBy;
    StoppedIffRevoked(rs, User(token.user), token.iat, now);
    if token.session.Some? {
      StoppedIffRevoked(rs, Session(token.session.value), token.iat, now);
    }
  }

  /** No token issued up to the second of the revocation is accepted, at any time. */
  ghost predicate StopsAll(keys: Keys, user: string, lifetime: nat, r: Revocation) {
    forall issued: int, now: int | 1000 <= issued && Seconds(issued) <= Seconds(r.now) ::
      !Accepted(keys, Issue(user, None, lifetime, issued), now, true)
  }

  /**
   After any revocations, the last one of the user decides, exactly: it stops every token issued up
   to its second iff such a token has expired one millisecond after the key is gone.
   */
  lemma {:induction false} LastRevocationDecides(rs: seq<Revocation>, i: nat, user: string, lifetime: nat)
    requires LastFor(rs, i) && rs[i].subject == User(user) && rs[i].now >= 1000
    ensures StopsAll(Run(rs), user, lifetime, rs[i]) <==>
            Seconds(rs[i].now) + lifetime <= Seconds(rs[i].now + AtLeastOne(rs[i].ttlSeconds) * 1000 + 1)
  {
    hide Run;
    LastKeyStands(rs, i);
    var r, key := rs[i], KeyOf(rs[i]);
    if Seconds(r.now) + lifetime <= Seconds(key.expiry + 1) {
      forall issued: int, now: int | 1000 <= issued && Seconds(issued) <= Seconds(r.now)
        ensures !Accepted(Run(rs), Issue(user, None, lifetime, issued), now, true)
      {
        assert Seconds(issued) != 0;
        if now > key.expiry {
          SecondsAreMonotone(key.expiry + 1, now);
        }
      }
    } else {
      assert Seconds(r.now) != 0;
      assert Accepted(Run(rs), Issue(user, None, lifetime, r.now), key.expiry + 1, true);
    }
  }

  /** A later revocation with a shorter key replaces the longer one and uncovers the token. */
  lemma ShorterRevocationUncovers()
    ensures exists rs: seq<Revocation>, now ::
              && InOrder(rs) && |rs| == 2 && rs[0].applied && rs[0].subject == User("u") && rs[0].ttlSeconds == 1800 &&
                   rs[0].now >= 1000
              && Accepted(Run(rs), Issue("u", None, 1800, 1000), now, true)
  {
    var a, b := Revocation(User("u"), 1800, 1000, true), Revocation(User("u"), 900, 2000, true);
    var rs := [a, b];
    assert rs[..1] == [a] && [a][..0] == [];
    assert Run([a]) == Revoke(map[], a);
    assert Run(rs) == Revoke(Run([a]), b);
    assert Seconds(902001) == 902;
    assert Accepted(Run(rs), Issue("u", None, 1800, 1000), 902001, true);
  }

  /** The cutoff is a whole second: within it, a token issued after the revocation is refused too. */
  lemma SameSecondIsRefused(r: Revocation, user: string, lifetime: nat, issued: int, now: int)
    requires r.applied && r.subject == User(user) && r.now <= issued <= now <= r.now + AtLeastOne(r.ttlSeconds) * 1000
    requires issued >= 1000 && Seconds(now) < Seconds(issued) + lifetime
    ensures Accepted(Run([r]), Issue(user, None, lifetime, issued), now, true) <==> Seconds(issued) > Seconds(r.now)
  {
    assert [r][..0] == [];
    assert Run([r]) == Revoke(map[], r);
  }
}

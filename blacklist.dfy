/** `TokenBlacklist`: token revocation in a Redis store. The store is a map
    from key to entry, each entry with the instant its TTL runs out; a
    store that cannot be reached is a field holding the error every command
    then raises. The SHA-256 hex digest is a parameter. */
module Blacklist {
  import opened Outcomes
  import opened JwtPayload

  /** A Redis string value and the instant its TTL elapses. */
  datatype Entry = Entry(value: string, expiresAt: real)

  /** `hashlib.sha256(token.encode()).hexdigest()`. */
  type Digest = Token -> string

  /** The Redis key that records the revocation of `token`: only the digest
      of the token is stored, never the token. */
  function Key(digest: Digest, token: Token): string {
    "blacklist:" + digest(token)
  }

  /** Python `int()` of a float: truncation toward zero. */
  function Truncate(x: real): (n: int)
    ensures 0.0 <= x ==> n as real <= x < n as real + 1.0
    ensures x < 0.0 ==> n as real - 1.0 < x <= n as real
  {
    if 0.0 <= x then x.Floor else -((-x).Floor)
  }

  /** Redis GET at instant `now`: an entry whose TTL has elapsed is gone. */
  function Lookup(entries: map<string, Entry>, key: string, now: real): Option<string> {
    if key in entries && now < entries[key].expiresAt then Some(entries[key].value) else None
  }

  const ExpiredMessage := "Token süresi zaten doldu, blackliste eklenemeyecektir."
  const InvalidMessage := "Geçersiz token, blackliste eklenmeyecektir."
  const NoExpMessage := "Token içinde exp alanı bulunamadı"
  const AlreadyBlacklisted := "Token zaten blackliste eklenmiş."

  /** The generic handler of `blacklist_token` re-raises with this prefix. */
  function Unknown(message: string): string {
    "Bilinmeyen bir hata: " + message
  }

  /** The handler of `logout` re-raises with this prefix. */
  function LogoutFailure(message: string): string {
    "Logout işlemi sırasında hata: " + message
  }

  /** `datetime.utcnow().timestamp()` at the true instant `now`: the naive
      UTC wall time is read back as local time, so the server's offset from
      UTC (`utcOffset` seconds, positive east of Greenwich) is subtracted.
      On a server whose zone is UTC this is `now` itself. */
  function UtcnowTimestamp(now: real, utcOffset: int): real {
    now - utcOffset as real
  }

  /** What `blacklist_token` decides before it writes: the TTL in whole
      seconds, or the exception. `exp` is a true UTC timestamp, while the
      instant subtracted from it is `UtcnowTimestamp`, so the TTL is the
      time left plus the server's UTC offset, truncated; a TTL below one
      second is refused like an expired token. */
  function Admission(decode: Decoder, token: Token, now: real, utcOffset: int): (r: Outcome<int>)
    ensures decode(token, now) == ExpiredSignature ==> r == Raised(ExpiredMessage)
    ensures decode(token, now) == InvalidToken ==> r == Raised(InvalidMessage)
    ensures decode(token, now).Decoded? && !TruthyInt(decode(token, now).payload.exp) ==>
              r == Raised(Unknown(NoExpMessage))
    ensures r.Ok? <==> decode(token, now).Decoded? && TruthyInt(decode(token, now).payload.exp)
                       && decode(token, now).payload.exp.value as real - now + utcOffset as real >= 1.0
    ensures decode(token, now).Decoded? && TruthyInt(decode(token, now).payload.exp) && !r.Ok? ==>
              r == Raised(Unknown(ExpiredMessage))
    ensures r.Ok? ==> var left := decode(token, now).payload.exp.value as real - now + utcOffset as real;
                      0 < r.value && r.value as real <= left < r.value as real + 1.0
  {
    match decode(token, now)
    case ExpiredSignature => Raised(ExpiredMessage)
    case InvalidToken => Raised(InvalidMessage)
    case Decoded(payload) =>
      if !TruthyInt(payload.exp) then Raised(Unknown(NoExpMessage))
      else
        var ttl := Truncate(payload.exp.value as real - UtcnowTimestamp(now, utcOffset));
        if ttl <= 0 then Raised(Unknown(ExpiredMessage)) else Ok(ttl)
  }

  /** The evident intent of `blacklist_token`: the TTL is the token's true
      remaining lifetime, as `datetime.now(timezone.utc).timestamp()` (or
      `time.time()`) would give it. That is the code as written on a server
      whose zone is UTC. The entry then lapses in the last second of the
      token's life, never after it. */
  function IntendedAdmission(decode: Decoder, token: Token, now: real): (r: Outcome<int>)
    ensures r.Ok? <==> decode(token, now).Decoded? && TruthyInt(decode(token, now).payload.exp)
                       && decode(token, now).payload.exp.value as real - now >= 1.0
    ensures r.Ok? ==> var exp := decode(token, now).payload.exp.value as real;
                      0 < r.value && exp - 1.0 < now + r.value as real <= exp
    ensures r.Raised? ==> r.message in {ExpiredMessage, InvalidMessage, Unknown(NoExpMessage), Unknown(ExpiredMessage)}
  {
    Admission(decode, token, now, 0)
  }

  /** The result of a call and the store it leaves behind. */
  datatype Step = Step(result: Outcome<bool>, entries: map<string, Entry>)

  /** `blacklist_token(token)`: on success exactly one entry is written,
      under the digest key, holding 'true' for the TTL; every failure raises
      and writes nothing, so the call never returns False. */
  function BlacklistSpec(entries: map<string, Entry>, storeError: Option<string>, decode: Decoder,
                         digest: Digest, token: Token, now: real, utcOffset: int): (s: Step)
    ensures s.result.Ok? ==> s.result.value
    ensures s.result.Ok? <==> Admission(decode, token, now, utcOffset).Ok? && storeError.None?
    ensures s.result.Ok? ==>
              s.entries == entries[Key(digest, token) := Entry("true", now + Admission(decode, token, now, utcOffset).value as real)]
    ensures s.result.Raised? ==> s.entries == entries
    ensures Admission(decode, token, now, utcOffset).Raised? ==> s.result == Raised(Admission(decode, token, now, utcOffset).message)
    ensures Admission(decode, token, now, utcOffset).Ok? && storeError.Some? ==> s.result == Raised(Unknown(storeError.value))
  {
    match Admission(decode, token, now, utcOffset)
    case Raised(m) => Step(Raised(m), entries)
    case Ok(ttl) =>
      if storeError.Some? then Step(Raised(Unknown(storeError.value)), entries)
      else Step(Ok(true), entries[Key(digest, token) := Entry("true", now + ttl as real)])
  }

  /** `is_blacklisted(token)` at instant `now`: a non-empty value under the
      digest key; any store error reads as "not revoked" (fail-open). */
  predicate IsRevoked(entries: map<string, Entry>, storeError: Option<string>, digest: Digest,
                      token: Token, now: real)
  {
    storeError.None? && var v := Lookup(entries, Key(digest, token), now); v.Some? && v.value != ""
  }

  /** `logout(access, refresh)`: refused when both tokens are already
      revoked; otherwise revokes the access token, then the refresh token,
      re-raising the first failure. Only the two digest keys can change. */
  function LogoutSpec(entries: map<string, Entry>, storeError: Option<string>, decode: Decoder,
                      digest: Digest, access: Token, refresh: Token, now: real, utcOffset: int): (s: Step)
    ensures s.result.Ok? ==> s.result.value
    ensures s.result.Raised? ==> LogoutFailure("") <= s.result.message
    ensures forall k :: k != Key(digest, access) && k != Key(digest, refresh) ==>
              (k in s.entries <==> k in entries) && (k in entries ==> s.entries[k] == entries[k])
    ensures storeError.Some? ==> s.entries == entries && s.result.Raised?
  {
    if IsRevoked(entries, storeError, digest, access, now) && IsRevoked(entries, storeError, digest, refresh, now) then
      Step(Raised(LogoutFailure(AlreadyBlacklisted)), entries)
    else
      var a := BlacklistSpec(entries, storeError, decode, digest, access, now, utcOffset);
      if a.result.Raised? then Step(Raised(LogoutFailure(a.result.message)), a.entries)
      else
        var b := BlacklistSpec(a.entries, storeError, decode, digest, refresh, now, utcOffset);
        if b.result.Raised? then Step(Raised(LogoutFailure(b.result.message)), b.entries)
        else Step(Ok(true), b.entries)
  }

  /** After a successful revocation the token reads as revoked from `now`
      until, and only until, its entry's TTL elapses. That moment lies in
      the last second before the token's expiry shifted by the server's
      UTC offset. */
  lemma RevokedUntilEntryExpires(entries: map<string, Entry>, decode: Decoder, digest: Digest,
                                 token: Token, now: real, utcOffset: int, later: real)
    requires BlacklistSpec(entries, None, decode, digest, token, now, utcOffset).result.Ok?
    requires now <= later
    ensures var after := BlacklistSpec(entries, None, decode, digest, token, now, utcOffset).entries;
            var until := after[Key(digest, token)].expiresAt;
            && (IsRevoked(after, None, digest, token, later) <==> later < until)
            && now < until
            && var exp := decode(token, now).payload.exp.value as real + utcOffset as real;
               exp - 1.0 < until <= exp
  {
    var ttl := Admission(decode, token, now, utcOffset).value;
    var after := BlacklistSpec(entries, None, decode, digest, token, now, utcOffset).entries;
    assert after[Key(digest, token)] == Entry("true", now + ttl as real);
  }

  /** On a UTC server the revocation lasts exactly as long as the token,
      to within its last second. */
  lemma RevokedUntilTokenExpiresOnUtcServer(entries: map<string, Entry>, decode: Decoder, digest: Digest,
                                            token: Token, now: real)
    requires BlacklistSpec(entries, None, decode, digest, token, now, 0).result.Ok?
    ensures var until := BlacklistSpec(entries, None, decode, digest, token, now, 0).entries[Key(digest, token)].expiresAt;
            var exp := decode(token, now).payload.exp.value as real;
            exp - 1.0 < until <= exp
  {
    RevokedUntilEntryExpires(entries, decode, digest, token, now, 0, now);
  }

  /** East of Greenwich the entry outlives the token: the revocation is
      still stored after the token has expired. */
  lemma EntryOutlivesTokenEastOfUtc(entries: map<string, Entry>, decode: Decoder, digest: Digest,
                                   token: Token, now: real, utcOffset: int)
    requires utcOffset > 0
    requires BlacklistSpec(entries, None, decode, digest, token, now, utcOffset).result.Ok?
    ensures var after := BlacklistSpec(entries, None, decode, digest, token, now, utcOffset).entries;
            var exp := decode(token, now).payload.exp.value as real;
            IsRevoked(after, None, digest, token, exp)
  {
    RevokedUntilEntryExpires(entries, decode, digest, token, now, utcOffset, now);
  }

  /** West of Greenwich the entry lapses before the token expires: from
      that moment until the token's expiry the decoder may still accept a
      token that no longer reads as revoked. */
  lemma EntryLapsesBeforeTokenWestOfUtc(entries: map<string, Entry>, decode: Decoder, digest: Digest,
                                       token: Token, now: real, utcOffset: int)
    requires utcOffset < 0
    requires BlacklistSpec(entries, None, decode, digest, token, now, utcOffset).result.Ok?
    ensures var after := BlacklistSpec(entries, None, decode, digest, token, now, utcOffset).entries;
            var until := after[Key(digest, token)].expiresAt;
            var exp := decode(token, now).payload.exp.value as real;
            && until <= exp + utcOffset as real < exp
            && !IsRevoked(after, None, digest, token, until)
  {
    RevokedUntilEntryExpires(entries, decode, digest, token, now, utcOffset, now);
  }

  /** West of Greenwich a token with no more life left than the offset is
      refused as expired although `jwt.decode` accepted it. */
  lemma FreshTokenRefusedWestOfUtc(decode: Decoder, token: Token, now: real, utcOffset: int)
    requires decode(token, now).Decoded? && TruthyInt(decode(token, now).payload.exp)
    requires decode(token, now).payload.exp.value as real - now < 1.0 - utcOffset as real
    ensures Admission(decode, token, now, utcOffset) == Raised(Unknown(ExpiredMessage))
  {
  }

  /** A fresh access token, 900 seconds from expiry, on a server in UTC-6
      (Django's default zone, America/Chicago, in winter): the code as
      written refuses to revoke it, while the intended TTL is 900. */
  lemma AccessTokenRefusedInUtcMinusSix(token: Token)
    ensures var p := Payload(Some(1), Some("Admin"), Some(900), Some(0), Some("access"));
            var decode := (t: Token, n: real) => Decoded(p);
            && Admission(decode, token, 0.0, -21600) == Raised(Unknown(ExpiredMessage))
            && IntendedAdmission(decode, token, 0.0) == Ok(900)
  {
    var p := Payload(Some(1), Some("Admin"), Some(900), Some(0), Some("access"));
    var decode := (t: Token, n: real) => Decoded(p);
    assert Truncate(900.0 - UtcnowTimestamp(0.0, 0)) == 900;
  }

  /** Revocation touches only the digest key: every other key keeps its
      entry. */
  lemma RevocationTouchesOnlyItsKey(entries: map<string, Entry>, storeError: Option<string>, decode: Decoder,
                                    digest: Digest, token: Token, now: real, utcOffset: int, other: string)
    requires other != Key(digest, token)
    ensures var after := BlacklistSpec(entries, storeError, decode, digest, token, now, utcOffset).entries;
            (other in after <==> other in entries) && (other in entries ==> after[other] == entries[other])
  {
  }

  /** A second logout with the same two tokens is refused and writes nothing. */
  lemma LogoutRejectsRepeat(entries: map<string, Entry>, storeError: Option<string>, decode: Decoder,
                            digest: Digest, access: Token, refresh: Token, now: real, utcOffset: int)
    requires IsRevoked(entries, storeError, digest, access, now)
    requires IsRevoked(entries, storeError, digest, refresh, now)
    ensures LogoutSpec(entries, storeError, decode, digest, access, refresh, now, utcOffset)
              == Step(Raised(LogoutFailure(AlreadyBlacklisted)), entries)
  {
  }

  /** Logout succeeds exactly when the two tokens are not both revoked
      already, both can be revoked and the store answers; it then leaves
      both revoked. */
  lemma LogoutRevokesBoth(entries: map<string, Entry>, storeError: Option<string>, decode: Decoder,
                          digest: Digest, access: Token, refresh: Token, now: real, utcOffset: int)
    ensures var s := LogoutSpec(entries, storeError, decode, digest, access, refresh, now, utcOffset);
            && (s.result.Ok? <==>
                  && !(IsRevoked(entries, storeError, digest, access, now) && IsRevoked(entries, storeError, digest, refresh, now))
                  && Admission(decode, access, now, utcOffset).Ok? && Admission(decode, refresh, now, utcOffset).Ok?
                  && storeError.None?)
            && (s.result.Ok? ==> s.result.value
                                 && IsRevoked(s.entries, storeError, digest, access, now)
                                 && IsRevoked(s.entries, storeError, digest, refresh, now))
  {
    var s := LogoutSpec(entries, storeError, decode, digest, access, refresh, now, utcOffset);
    if s.result.Ok? {
      var a := BlacklistSpec(entries, storeError, decode, digest, access, now, utcOffset);
      var ka := Key(digest, access);
      var kr := Key(digest, refresh);
      assert a.entries[ka].expiresAt > now;
      assert s.entries[kr].expiresAt > now;
      assert s.entries[kr].value == "true";
      if ka != kr {
        assert s.entries[ka] == a.entries[ka];
      }
    }
  }

  /** No rollback: when the access token is revoked and the refresh token
      then fails, the access entry stays written and the call raises. */
  lemma LogoutKeepsAccessEntryWhenRefreshFails(entries: map<string, Entry>, decode: Decoder, digest: Digest,
                                                access: Token, refresh: Token, now: real, utcOffset: int)
    requires !(IsRevoked(entries, None, digest, access, now) && IsRevoked(entries, None, digest, refresh, now))
    requires Admission(decode, access, now, utcOffset).Ok?
    requires Admission(decode, refresh, now, utcOffset).Raised?
    ensures var s := LogoutSpec(entries, None, decode, digest, access, refresh, now, utcOffset);
            && s.result == Raised(LogoutFailure(Admission(decode, refresh, now, utcOffset).message))
            && s.entries == BlacklistSpec(entries, None, decode, digest, access, now, utcOffset).entries
            && IsRevoked(s.entries, None, digest, access, now)
  {
  }

  /** The revocation store. `decode` is the token decoder with the server's
      secret, `digest` the hash used for keys, and `utcOffset` the offset
      from UTC, in seconds, of the zone the server process runs in. */
  class TokenBlacklist {
    var entries: map<string, Entry>
    /** None while Redis answers; otherwise the error every command raises. */
    var storeError: Option<string>
    const decode: Decoder
    const digest: Digest
    const utcOffset: int

    constructor (decode: Decoder, digest: Digest, utcOffset: int, entries: map<string, Entry>,
                 storeError: Option<string>)
      ensures this.decode == decode && this.digest == digest && this.utcOffset == utcOffset
      ensures this.entries == entries && this.storeError == storeError
    {
      this.decode := decode;
      this.digest := digest;
      this.utcOffset := utcOffset;
      this.entries := entries;
      this.storeError := storeError;
    }

    /** `blacklist_token(token)` at instant `now`. */
    method BlacklistToken(token: Token, now: real) returns (r: Outcome<bool>)
      modifies this`entries
      ensures Step(r, entries) == BlacklistSpec(old(entries), storeError, decode, digest, token, now, utcOffset)
    {
      var admitted := Admission(decode, token, now, utcOffset);
      if admitted.Raised? {
        return Raised(admitted.message);
      }
      if storeError.Some? {
        return Raised(Unknown(storeError.value));
      }
      entries := entries[Key(digest, token) := Entry("true", now + admitted.value as real)];
      r := Ok(true);
    }

    /** `is_blacklisted(token)` at instant `now`. */
    method IsBlacklisted(token: Token, now: real) returns (b: bool)
      ensures b == IsRevoked(entries, storeError, digest, token, now)
    {
      if storeError.Some? {
        return false;
      }
      var v := Lookup(entries, Key(digest, token), now);
      b := v.Some? && v.value != "";
    }

    /** `logout(access, refresh)` at instant `now`. The check for a False
        result after each `blacklist_token` is not modelled: that call
        never returns False. */
    method Logout(access: Token, refresh: Token, now: real) returns (r: Outcome<bool>)
      modifies this`entries
      ensures Step(r, entries) == LogoutSpec(old(entries), storeError, decode, digest, access, refresh, now, utcOffset)
    {
      var accessRevoked := IsBlacklisted(access, now);
      var bothRevoked := false;
      if accessRevoked {
        bothRevoked := IsBlacklisted(refresh, now);
      }
      if bothRevoked {
        return Raised(LogoutFailure(AlreadyBlacklisted));
      }
      var a := BlacklistToken(access, now);
      if a.Raised? {
        return Raised(LogoutFailure(a.message));
      }
      var b := BlacklistToken(refresh, now);
      if b.Raised? {
        return Raised(LogoutFailure(b.message));
      }
      r := Ok(true);
    }
  }
}

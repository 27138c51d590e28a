/** The in-memory stores: six maps updated in place. Random values and the clock are parameters. */
module MemoryStores {
  import opened Numerals
  import opened Limits
  import opened Tokens

  class MemoryStores {
    var sessions: map<Digest, Session>
    var deviceAttempts: map<string, nat>
    var ipAttempts: map<string, nat>
    var lastCounter: map<string, Claim>
    var tokens: map<Digest, TokenRecord>
    var tokenIds: map<string, Digest>

    const sessionTtlSeconds: nat
    const attemptsPerWindow: int
    const ipAttemptsPerMinute: int
    const tokenConfig: TokenConfig

    constructor (sessionTtlSeconds: nat, attemptsPerWindow: int, ipAttemptsPerMinute: int, tokenConfig: TokenConfig)
      ensures this.sessionTtlSeconds == sessionTtlSeconds && this.attemptsPerWindow == attemptsPerWindow
      ensures this.ipAttemptsPerMinute == ipAttemptsPerMinute && this.tokenConfig == tokenConfig
      ensures sessions == map[] && LimiterView() == Forgetful(map[], map[], map[]) && TokenView() == TokenStore(map[], map[])
      ensures Indexed(TokenView()) && forall t :: WithinLimit(tokenConfig, TokenView(), t)
    {
      sessions, deviceAttempts, ipAttempts, lastCounter, tokens, tokenIds := map[], map[], map[], map[], map[], map[];
      this.sessionTtlSeconds, this.tokenConfig := sessionTtlSeconds, tokenConfig;
      this.attemptsPerWindow, this.ipAttemptsPerMinute := attemptsPerWindow, ipAttemptsPerMinute;
    }

    function LimiterView(): Limiter
      reads this
    {
      Forgetful(lastCounter, deviceAttempts, ipAttempts)
    }

    function TokenView(): TokenStore
      reads this
    {
      TokenStore(tokens, tokenIds)
    }

    // ---- Limiter ------------------------------------------------------------------

    static method Bump(attempts: map<string, nat>, key: string, limit: int) returns (after: map<string, nat>, ok: bool)
      ensures after == Bumped(attempts, key) && ok == (after[key] <= limit)
    {
      var count := Count(attempts, key) + 1;
      after := attempts[key := count];
      ok := count <= limit;
    }

    method AllowIp(ip: string, t: nat) returns (ok: bool)
      modifies `ipAttempts
      ensures (LimiterView(), ok) == Limits.AllowIp(old(LimiterView()), ip, MinuteOf(t), ipAttemptsPerMinute)
      ensures ok <==> Count(old(ipAttempts), AttemptKey(ip, t / 60_000)) < ipAttemptsPerMinute
      ensures Count(ipAttempts, AttemptKey(ip, t / 60_000)) == Count(old(ipAttempts), AttemptKey(ip, t / 60_000)) + 1
    {
      ipAttempts, ok := Bump(ipAttempts, AttemptKey(ip, MinuteOf(t)), ipAttemptsPerMinute);
    }

    method AllowDevice(deviceId: string, window: nat) returns (ok: bool)
      modifies `deviceAttempts
      ensures (LimiterView(), ok) == Limits.AllowDevice(old(LimiterView()), deviceId, window, attemptsPerWindow)
      ensures ok <==> Count(old(deviceAttempts), AttemptKey(deviceId, window)) < attemptsPerWindow
      ensures Count(deviceAttempts, AttemptKey(deviceId, window)) == Count(old(deviceAttempts), AttemptKey(deviceId, window)) + 1
    {
      deviceAttempts, ok := Bump(deviceAttempts, AttemptKey(deviceId, window), attemptsPerWindow);
    }

    method Claim(deviceId: string, counter: nat, t: nat) returns (ok: bool)
      modifies `lastCounter
      ensures (LimiterView(), ok) == ClaimCounter(old(LimiterView()), deviceId, counter, t)
    {
      if deviceId in lastCounter {
        var prev := lastCounter[deviceId];
        if prev.expiresAt > t && counter <= prev.counter {
          return false;
        }
      }
      lastCounter := lastCounter[deviceId := Limits.Claim(counter, t + STEP_SECONDS * 4 * 1000)];
      return true;
    }

    // ---- Sessions -----------------------------------------------------------------

    method CreateSession(deviceId: string, token: string, t: nat)
      modifies `sessions
      ensures sessions == old(sessions)[Sha256(token) := Session(deviceId, t, t + sessionTtlSeconds * 1000)]
      ensures CookieShaped(token) && sessionTtlSeconds > 0 ==> SessionLive(sessions, token, t)
    {
      sessions := sessions[Sha256(token) := Session(deviceId, t, t + sessionTtlSeconds * 1000)];
    }

    method GetSession(token: string, t: nat) returns (s: Option<Session>)
      modifies `sessions
      ensures sessions == AfterGet(old(sessions), token, t)
      ensures s == if SessionLive(old(sessions), token, t) then Some(old(sessions)[Sha256(token)]) else None
    {
      if |token| == 0 || |token| > 128 {
        return None;
      }
      if Sha256(token) !in sessions {
        assert sessions - {Sha256(token)} == sessions;
        return None;
      }
      if sessions[Sha256(token)].expiresAt <= t {
        sessions := sessions - {Sha256(token)};
        return None;
      }
      return Some(sessions[Sha256(token)]);
    }

    method DestroySession(token: string)
      modifies `sessions
      ensures sessions == if token == "" then old(sessions) else old(sessions) - {Sha256(token)}
      ensures forall t :: !SessionLive(sessions, token, t)
    {
      if |token| > 0 {
        sessions := sessions - {Sha256(token)};
      }
    }

    // ---- Tokens -------------------------------------------------------------------

    method CreateToken(deviceId: string, labelText: string, token: string, id: string, t: nat)
      returns (record: Option<TokenRecord>)
      modifies `tokens, `tokenIds
      ensures TokenView() == Created(tokenConfig, old(TokenView()), deviceId, labelText, token, id, t)
      ensures record == if |Owned(old(tokens), deviceId, t)| >= tokenConfig.maxPerDevice then None
                        else Some(NewRecord(tokenConfig, id, deviceId, labelText, t))
      ensures old(Indexed(TokenView())) && Sha256(token) !in old(tokens) && id !in old(tokenIds) ==> Indexed(TokenView())
    {
      var owned := set h | h in tokens && tokens[h].deviceId == deviceId && Live(tokens, h, t);
      if |owned| >= tokenConfig.maxPerDevice {
        return None;
      }
      var r := NewRecord(tokenConfig, id, deviceId, labelText, t);
      tokens := tokens[Sha256(token) := r];
      tokenIds := tokenIds[id := Sha256(token)];
      return Some(r);
    }

    method LookupToken(token: string, t: nat) returns (record: Option<TokenRecord>)
      ensures record == Lookup(TokenView(), token, t)
      ensures record.Some? ==> t < record.value.expiresAt && record.value in Listed(TokenView(), record.value.deviceId, t)
    {
      if !TokenShaped(token) || Sha256(token) !in tokens {
        return None;
      }
      var r := tokens[Sha256(token)];
      if t < r.expiresAt {
        assert Sha256(token) in Owned(tokens, r.deviceId, t);
        return Some(r);
      }
      return None;
    }

    method RevokeToken(deviceId: string, id: string) returns (ok: bool)
      modifies `tokens, `tokenIds
      ensures ok == Revocable(old(TokenView()), deviceId, id)
      ensures TokenView() == Revoked(old(TokenView()), deviceId, id)
      ensures forall h :: h in old(tokens) && h !in tokens ==> old(tokens)[h].deviceId == deviceId
    {
      if id !in tokenIds || tokenIds[id] !in tokens || tokens[tokenIds[id]].deviceId != deviceId {
        return false;
      }
      tokens := tokens - {tokenIds[id]};
      tokenIds := tokenIds - {id};
      return true;
    }

    method TouchToken(id: string, t: nat)
      modifies `tokens
      ensures TokenView() == Touched(old(TokenView()), id, t)
      ensures id in tokenIds && tokenIds[id] in tokens ==>
                tokens[tokenIds[id]].lastUsedAt.Some? && t <= tokens[tokenIds[id]].lastUsedAt.value + 60_000
      ensures id in tokenIds && tokenIds[id] in tokens ==>
                var last := old(tokens)[tokenIds[id]].lastUsedAt;
                last.Some? && t <= last.value + 60_000 ==> tokens == old(tokens)
      ensures forall h, u :: Live(tokens, h, u) <==> Live(old(tokens), h, u)
    {
      if id in tokenIds && tokenIds[id] in tokens {
        var h := tokenIds[id];
        var r := tokens[h];
        if r.lastUsedAt == None || t - r.lastUsedAt.value > 60_000 {
          tokens := tokens[h := r.(lastUsedAt := Some(t))];
        }
      }
    }

    // ---- Sweeping -----------------------------------------------------------------

    /** Drops attempts whose slot is before `oldest`; a key without a number stays. */
    static method SweepAttempts(attempts: map<string, nat>, oldest: int) returns (after: map<string, nat>)
      ensures after == attempts - OldKeys(attempts, oldest)
    {
      after := attempts;
      var todo := attempts.Keys;
      while todo != {}
        invariant todo <= attempts.Keys
        invariant after == attempts - (OldKeys(attempts, oldest) - todo)
      {
        var k :| k in todo;
        var slot := Suffix(k);
        if slot.Some? && slot.value < oldest {
          after := after - {k};
        }
        todo := todo - {k};
      }
    }

    method SweepSessions(t: nat)
      modifies `sessions
      ensures sessions == map k | k in old(sessions) && t < old(sessions)[k].expiresAt :: old(sessions)[k]
    {
      var todo := sessions.Keys;
      while todo != {}
        invariant todo <= old(sessions).Keys
        invariant sessions == map k | k in old(sessions) && (k in todo || t < old(sessions)[k].expiresAt) :: old(sessions)[k]
      {
        var k :| k in todo;
        if sessions[k].expiresAt <= t {
          sessions := sessions - {k};
        }
        todo := todo - {k};
      }
    }

    method SweepClaims(t: nat)
      modifies `lastCounter
      ensures lastCounter == old(lastCounter) - ExpiredClaims(old(lastCounter), t)
    {
      var todo := lastCounter.Keys;
      while todo != {}
        invariant todo <= old(lastCounter).Keys
        invariant lastCounter == old(lastCounter) - (ExpiredClaims(old(lastCounter), t) - todo)
      {
        var k :| k in todo;
        if lastCounter[k].expiresAt <= t {
          lastCounter := lastCounter - {k};
        }
        todo := todo - {k};
      }
    }

    method SweepTokens(t: nat)
      modifies `tokens, `tokenIds
      ensures TokenView() == Swept(old(TokenView()), t)
    {
      var todo := tokens.Keys;
      while todo != {}
        invariant todo <= old(tokens).Keys
        invariant tokens == map h | h in old(tokens) && (h in todo || Live(old(tokens), h, t)) :: old(tokens)[h]
        invariant tokenIds == old(tokenIds) - set h | h in old(tokens) && h !in todo && !Live(old(tokens), h, t) :: old(tokens)[h].id
      {
        var h :| h in todo;
        ghost var gone := set k | k in old(tokens) && k !in todo && !Live(old(tokens), k, t) :: old(tokens)[k].id;
        ghost var goneNow := set k | k in old(tokens) && k !in todo - {h} && !Live(old(tokens), k, t) :: old(tokens)[k].id;
        if tokens[h].expiresAt <= t {
          assert goneNow == gone + {old(tokens)[h].id};
          tokenIds := tokenIds - {tokens[h].id};
          tokens := tokens - {h};
        } else {
          assert goneNow == gone;
        }
        todo := todo - {h};
      }
      assert tokens == Swept(old(TokenView()), t).tokens;
      assert ExpiredIds(old(tokens), t) ==
             set h | h in old(tokens) && h !in todo && !Live(old(tokens), h, t) :: old(tokens)[h].id;
    }

    method SweepLimiter(t: nat)
      modifies `deviceAttempts, `ipAttempts, `lastCounter
      ensures LimiterView() == Forgot(old(LimiterView()), SweptNow(old(LimiterView()), t))
    {
      hide OldKeys, ExpiredClaims;
      var w: int, m: int := WindowOf(t), MinuteOf(t);
      deviceAttempts := SweepAttempts(deviceAttempts, w - 1);
      ipAttempts := SweepAttempts(ipAttempts, m);
      SweepClaims(t);
    }

    /** The sweep is a legal act of forgetting: nothing a later call can ask about is dropped. */
    method Sweep(t: nat)
      modifies this
      ensures MayForget(old(LimiterView()), SweptNow(old(LimiterView()), t), t, 0)
      ensures LimiterView() == Forgot(old(LimiterView()), SweptNow(old(LimiterView()), t))
      ensures forall k, u :: t <= u ==> (SessionLive(sessions, k, u) <==> SessionLive(old(sessions), k, u))
      ensures forall k :: k in sessions ==> t < sessions[k].expiresAt
      ensures forall ip: string, minute: nat :: AttemptKey(ip, minute) in ipAttempts ==> t / 60_000 <= minute
      ensures forall id: string, window: nat :: AttemptKey(id, window) in deviceAttempts ==> t / 90_000 <= window + 1
      ensures forall id :: id in lastCounter ==> t < lastCounter[id].expiresAt
      ensures TokenView() == Swept(old(TokenView()), t)
      ensures forall h :: h in tokens ==> t < tokens[h].expiresAt
    {
      SweepSessions(t);
      SweepLimiter(t);
      SweepTokens(t);
      SweepIsForgetting(old(LimiterView()), t);
      OldKeysGone(old(ipAttempts), t / 60_000);
      OldKeysGone(old(deviceAttempts), t / 90_000 - 1);
    }
  }

  function OldKeys(attempts: map<string, nat>, oldest: int): set<string> {
    set k | k in attempts && Suffix(k).Some? && Suffix(k).value < oldest
  }

  lemma OldKeysGone(attempts: map<string, nat>, oldest: int)
    ensures forall who: string, slot: nat :: AttemptKey(who, slot) in attempts - OldKeys(attempts, oldest) ==> oldest <= slot
  {
    forall who: string, slot: nat | AttemptKey(who, slot) in attempts - OldKeys(attempts, oldest) ensures oldest <= slot {
      SuffixOfKey(who, slot);
    }
  }

  function ExpiredClaims(claims: map<string, Claim>, t: nat): set<string> {
    set k | k in claims && claims[k].expiresAt <= t
  }

  function SweptNow(l: Limiter, t: nat): Dropped
    requires l.Forgetful?
  {
    Dropped(ExpiredClaims(l.claims, t), OldKeys(l.devices, WindowOf(t) - 1), OldKeys(l.ips, MinuteOf(t)))
  }

  lemma SweepIsForgetting(l: Limiter, t: nat)
    requires l.Forgetful?
    ensures MayForget(l, SweptNow(l, t), t, 0)
  {
  }
}

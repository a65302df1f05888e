/**
 Bootstrap tokens: platform/keysystem/keyserver/token/registry.go,
 platform/keysystem/keyserver/token/scoped/token.go and platform/keysystem/keyserver/verifier/token.go.

 The functions say what one critical section does to the registry's map.  The class does it in
 place; KeyserverRun interleaves the same functions among any number of requests.  The clock is
 read where the source reads it: once for every entry in the expiry loop, once in HasExpired,
 once in GenerateToken.
 */
module TokenRegistry {
  import opened Wrappers

  // O is the handle of the shared sync.Once: an object here, a number in KeyserverRun.
  datatype ScopedToken<+O> = ScopedToken(token: string, subject: string, expires: int, claimed: O)

  // A token without its sync.Once: what a grant fixes.
  datatype Entry = Entry(token: string, subject: string, expires: int)

  function Fixed<O>(t: ScopedToken<O>): Entry {
    Entry(t.token, t.subject, t.expires)
  }

  predicate HasExpired<O>(t: ScopedToken<O>, now: int) {
    now > t.expires
  }

  // What the deleting loop leaves, if entry k is visited when the clock shows readAt(k).
  function Unexpired<O>(m: map<string, ScopedToken<O>>, readAt: string -> int): map<string, ScopedToken<O>> {
    map k | k in m && !HasExpired(m[k], readAt(k)) :: m[k]
  }

  // addToken; None is the panic on a collision, which leaves the map alone.
  function Added<O>(m: map<string, ScopedToken<O>>, t: ScopedToken<O>): Option<map<string, ScopedToken<O>>> {
    if t.token in m then None else Some(m[t.token := t])
  }

  function Entries<O>(m: map<string, ScopedToken<O>>): map<string, Entry> {
    map k | k in m :: Fixed(m[k])
  }

  predicate WellKeyed<O>(m: map<string, ScopedToken<O>>) {
    forall k | k in m :: m[k].token == k
  }

  /** sync.Once: of all calls ever made, the first one runs its function. */
  class Once {
    var done: bool

    constructor ()
      ensures !done
    {
      done := false;
    }

    method Do() returns (ran: bool)
      modifies this
      ensures done && ran == !old(done)
    {
      ran := !done;
      done := true;
    }
  }

  datatype ClaimError = Expired | AlreadyClaimed

  /** ScopedToken.Claim; now is the clock at the expiry check. */
  method Claim(t: ScopedToken<Once>, now: int) returns (r: Option<ClaimError>)
    modifies t.claimed
    ensures r == if now > t.expires then Some(Expired)
                 else if old(t.claimed.done) then Some(AlreadyClaimed) else None
    ensures t.claimed.done == (old(t.claimed.done) || now <= t.expires)
  {
    if HasExpired(t, now) {
      return Some(Expired);
    }
    var hasClaimed := t.claimed.Do();
    if !hasClaimed {
      return Some(AlreadyClaimed);
    }
    return None;
  }

  method GenerateToken(id: string, subject: string, now: int, lifespan: int) returns (t: ScopedToken<Once>)
    ensures Fixed(t) == Entry(id, subject, now + lifespan)
    ensures fresh(t.claimed) && !t.claimed.done
  {
    var once := new Once();
    t := ScopedToken(id, subject, now + lifespan, once);
  }

  class Registry {
    var byToken: map<string, ScopedToken<Once>>

    // Keyed by token string, and no two entries share a sync.Once.
    ghost predicate Valid()
      reads this
    {
      && WellKeyed(byToken)
      && forall j, k | j in byToken && k in byToken && byToken[j].claimed == byToken[k].claimed :: j == k
    }

    constructor ()
      ensures Valid() && byToken == map[]
    {
      byToken := map[];
    }

    /** LookupToken; None is its error.  An expired token is found all the same. */
    function LookupToken(token: string): (r: Option<ScopedToken<Once>>)
      reads this
      ensures r.Some? <==> token in byToken
      ensures r.Some? ==> r.value == byToken[token]
      ensures r.Some? && Valid() ==> r.value.token == token
    {
      if token !in byToken then None else Some(byToken[token])
    }

    method AddToken(t: ScopedToken<Once>) returns (added: bool)
      requires Valid() && forall k | k in byToken :: byToken[k].claimed != t.claimed
      modifies this
      ensures Valid()
      ensures added == (t.token !in old(byToken))
      ensures byToken == if added then old(byToken)[t.token := t] else old(byToken)
    {
      if t.token in byToken {
        return false;
      }
      byToken := byToken[t.token := t];
      return true;
    }

    method ExpireOldEntries(readAt: string -> int)
      requires Valid()
      modifies this
      ensures Valid()
      ensures byToken == Unexpired(old(byToken), readAt)
    {
      var unvisited := byToken.Keys;
      while unvisited != {}
        invariant unvisited <= byToken.Keys <= old(byToken).Keys
        invariant forall k | k in byToken :: byToken[k] == old(byToken)[k]
        invariant forall k | k in old(byToken) && k !in unvisited ::
                    k in byToken <==> !HasExpired(old(byToken)[k], readAt(k))
      {
        var k :| k in unvisited;
        unvisited := unvisited - {k};
        if HasExpired(byToken[k], readAt(k)) {
          byToken := byToken - {k};
        }
      }
    }

    /** GrantToken; None is the panic in addToken. */
    method GrantToken(subject: string, lifespan: int, readAt: string -> int, id: string, now: int)
      returns (r: Option<string>)
      requires Valid()
      modifies this
      ensures Valid()
      ensures var kept := Unexpired(old(byToken), readAt);
              if id in kept then r == None && byToken == kept
              else
                && r == Some(id)
                && id in byToken
                && byToken == kept[id := byToken[id]]
                && Fixed(byToken[id]) == Entry(id, subject, now + lifespan)
                && fresh(byToken[id].claimed) && !byToken[id].claimed.done
    {
      ExpireOldEntries(readAt);
      var t := GenerateToken(id, subject, now, lifespan);
      var added := AddToken(t);
      r := if added then Some(id) else None;
    }

    /** TokenVerifier.Verify: the principal that a bootstrap token proves. */
    method Verify(tokens: string, now: int) returns (r: Option<string>)
      requires Valid()
      modifies if tokens in byToken then {byToken[tokens].claimed} else {}
      ensures tokens == "" || tokens !in byToken ==> r == None
      ensures tokens != "" && tokens in byToken ==>
                var t := byToken[tokens];
                && r == (if now > t.expires || old(t.claimed.done) then None else Some(t.subject))
                && t.claimed.done == (old(t.claimed.done) || now <= t.expires)
    {
      if tokens == "" {
        return None;
      }
      var tok := LookupToken(tokens);
      if tok.None? {
        return None;
      }
      var err := Claim(tok.value, now);
      if err.Some? {
        return None;
      }
      return Some(tok.value.subject);
    }
  }
}

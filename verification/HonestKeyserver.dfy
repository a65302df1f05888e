/**
 Renewal assumes an honest server.  For the Keygrant, the runs of KeyserverRun provide it, if client and server
 read the same clock and the request arrives after the action began.
 */
module HonestKeyserver {
  import opened Wrappers
  import opened Accounts
  import opened Keyclient
  import opened Renewal
  import KeyserverRun

  // The answer is the keygranting certificate that the keyserver signed for the request.
  ghost predicate Answers(s: KeyserverRun.Sys, r: nat, cert: nat, env: Env) {
    && r < |s.requests| && s.requests[r].auth.Some? && env.now <= s.requests[r].auth.value.at
    && cert < |s.certs| && s.certs[cert].authority == Keygranting
    && s.certs[cert].origin == KeyserverRun.SignedFor(r)
    && env.answer == Success(Keyclient.Cert(s.certs[cert].notAfter))
  }

  // The request was accepted for the certificate that the client has in memory.
  ghost predicate Presents(s: KeyserverRun.Sys, r: nat, client: State) {
    && r < |s.requests| && s.requests[r].auth.Some? && s.requests[r].auth.value.credential.ByCert?
    && var cert := s.requests[r].auth.value.credential.cert;
    && cert < |s.certs| && client.keygrant == Some(s.certs[cert].notAfter)
  }

  /** The certificate runs for forty days from the request on, less the second that rounding takes. */
  lemma SignedForFortyDays(conf: Setup, s: KeyserverRun.Sys, r: nat, cert: nat, env: Env)
    requires KeyserverRun.Reachable(conf, s) && Answers(s, r, cert, env)
    ensures env.answer.value.notAfter > env.now + SignedFor(Granting) - SECOND
  {
    KeyserverRun.EveryRunIsSafe(conf, s);
    assert KeyserverRun.CertInv(KeyserverRun.WorldOf(conf), s, cert);
  }

  /** A renewal of the Keygrant is honest: it authenticated with a valid certificate and got a long-lived one. */
  lemma RenewalIsHonest(conf: Setup, s: KeyserverRun.Sys, r: nat, cert: nat, b: Bounds, client: State, api: string,
                        inAdvance: int, env: Env)
    requires KeyserverRun.Reachable(conf, s) && Answers(s, r, cert, env) && Presents(s, r, client)
    requires b.lifespan(Granting) == SignedFor(Granting)
    ensures HonestStep(b, client, RequestOrRenew(Granting, api, inAdvance), env)
  {
    SignedForFortyDays(conf, s, r, cert, env);
    KeyserverRun.AcceptedRequests(conf, s, r);
  }

  /** A first bootstrap against the keyserver makes the client ready to start. */
  lemma BootstrapIsHonest(conf: Setup, s: KeyserverRun.Sys, r: nat, cert: nat, b: Bounds, client: State, api: string,
                          env: Env, t: int)
    requires KeyserverRun.Reachable(conf, s) && Answers(s, r, cert, env)
    requires Adequate(b) && b.lifespan(Granting) == SignedFor(Granting) && t <= env.now + b.period
    requires client.keygrant.None? && (forall service :: CertPath(service) !in client.files) && client.retryAt == map[]
    ensures var started := Do(client, Action.Bootstrap(api), env);
            started.keygrant.Some? ==> Started(b, started, t)
  {
    SignedForFortyDays(conf, s, r, cert, env);
    BootstrapStarts(b, client, api, env, t);
  }
}

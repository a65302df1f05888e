# Homeworld, verified in Dafny

This project models the parts of Homeworld whose correctness is not visible in any one function, and proves
what they are for:

- **The keyserver** (Go): accounts and privileges, bootstrap tokens, request batches with impersonation, and whole
  runs of it, with any number of requests interleaved at every lock, clock reading and `sync.Once`.
- **The keyclient** (Go): the actions that it repeats, the loop that repeats them, why that loop goes quiet, and why
  no certificate lapses.
- **spire** (Python): trees of operations built through delegating objects, and the virtual test network, which is
  taken down again from wherever bringing it up has failed.
- **Text and versions**: shell quoting, configuration files, two template engines, apt files, console output, and
  package versions over a history of uploads.

Code that updates objects in place is modelled by classes and methods (`Accounts`, `TokenRegistry`, `Batch`,
`ServerCert`, `ActLoop`, `OperationBuilder`, `VirtNetRun`, `Templates`, `Console`), each proved against a function;
the theorems are about those functions.  The keyserver's threads are a state machine (`KeyserverRun`) whose labels are
the separately locked steps; a label that cannot happen changes nothing, so a statement about all label sequences
covers all runs.  `ServedAlone` ties it to the batches of `Batch`.  Most methods are named
after the source's, in PascalCase.

| Files | What they hold |
|---|---|
| `Text`, `Wrappers` | splitting, joining and trimming; `Option` and `Result` |
| `Accounts`, `TokenRegistry`, `Batch`, `ServerCert`, `KeyserverRun`, `ServedAlone` | the keyserver |
| `GrantTable`, `Responses`, `ClientView`, `Issued` | what it grants, answers and signs, written out |
| `Keyclient`, `ActLoop`, `Convergence`, `Renewal`, `BlockedStretch`, `MissedReload` | the keyclient |
| `Effects`, `BringUp` | what its actions do to a node, written out |
| `HonestKeyserver` | what the keyclient's theorems assume of the keyserver |
| `OperationTrees`, `OperationBuilder` | spire's operations |
| `HostsFile`, `Firewall`, `VirtNet`, `VirtNetFaults`, `VirtNetUndo`, `VirtNetUp`, `VirtNetRun` | the virtual network |
| `Shell`, `ConfFiles`, `Substitution`, `Templates`, `Console` | text |
| `Versions`, `VersionHistory`, `Apt`, `AptPrinting`, `AptLists` | packages |

Run `dafny verify dfyconfig.toml` to check everything.

## What turned out to be conditional

Some properties that one would expect do not hold of the code without a condition.  The code is modelled as it is; each
condition is part of a theorem.

- **A request for a certificate never backs off.**  The comment on `RetryAt` (platform/keysystem/keyclient/state/state.go:20-22)
  promises that forbidden APIs are not asked again and again.  `PostJSON` wraps errors, and requestSignature looks for a
  bare one, so only bootstrap and downloads back off (`KeyreqNeverBacksOff`, `DownloadBacksOff`, `BootstrapBacksOff`).
- **The loop goes quiet, except for a certificate file that exists and cannot be read**: that one is renewed in every
  cycle (`PerformingIsProgress` is an if-and-only-if; `MisreadIsNeverQuiet`).  No action gives another more to do, so the
  measure is a plain sum and needs no lexicographic order; the bound is 35 cycles.
- **Certificates lapse if the reload of the granting certificate is missed once.**  When the new certificate is written
  but cannot be loaded, the old Keygrant stays in memory, the file is not due, and by the time it is the Keygrant has
  ended: nothing is renewed any more (`MissedReloadIsFinal`; `OneMissedReloadLapses` is a run in which it happens).
  Without such an event nothing lapses, and `NoLapseExactly` has both directions.  The bound counts the time that a
  cycle takes: (k + 1) * P + D.
- **A node that first goes quiet while blocked is not announced as ready** when it is freed later without doing
  anything (`StretchIsAnnouncedOnce`; `FreedButNotAnnounced` is a run of two cycles in which it happens).
- **Signings of server certificates are spaced only after one that was cached**; if a step after the signature fails,
  the next call signs again (`LostCertificatesAreSignedAgain`, `TwoSignings`).
- **Taking the network down half-way** deletes a firewall rule of somebody else exactly if it equals one that was not
  yet inserted (`EqualRuleIsLost`), and changes /etc/hosts exactly if that is not empty and does not end in a newline
  (`LastLineIsEnded`), has a carriage return, or has a line of ours (`Rollback`).  A full up and down leaves equal rules
  alone (`UpThenDown`) and reports success (`FullDownSucceeds`).
- **A host name with a line end**, which hosts_up lets through, adds lines that hosts_down may not find (`NewlineStays`).
  They are taken out again exactly if no address has a line end, and each name has none, or only a carriage return at its
  end, without which it is the name of a node with the same address (`AddsOursExactly`, `CarriageReturnStays`).
- **A down command that fails for a reason of its own** may leave its link behind (`OneTapIsLeft`).  The network from
  before is back exactly if the deletion of each tap works; the deletion of the bridge, after it was set down if it was
  up; and that of the access link, unless it goes with the bridge (`NetIsDownExactly`; by position, `NetIsDownAt`).
  `FaultyRollback` has the firewall and /etc/hosts too.  If there is no upstream link any more, or hosts_down cannot
  write its file, net_down_inner raises at once and everything stays (`NetDownInner`).
- **A package that is dropped from an upload and comes back** can have one version for two hashes
  (`DroppedPackageReusesVersion`); with a new hash it does so exactly if production still has the number from
  before (`AbsenceExactly`), and while the package is in every upload it cannot (`VersionNamesOneHash`).
- **Blank continuation lines at the end of an apt field are lost**, and nothing else is (`PrintedIsParsed`).  So a text is
  read back as it was written exactly if no field ends in a blank line, but for a field that is one empty line and
  nothing else, whose value is empty either way (`PrintedIsParsedExactly`, `TrailingBlankIsLost`).
- **A key of a template may itself contain two opening braces**; it ends at the first two closing ones (`KeyWithBraces`).

## Model

| member | source | states |
|---|---|---|
| `Accounts.RegisterIsLastWrite` | platform/keysystem/worldconfig/keyserver.go:21-78 | A principal is registered if and only if some generated account has it, and what is registered is the last of those accounts. |
| `Accounts.AccountKinds` | platform/keysystem/worldconfig/keyserver.go:21-89 | For every setup, with duplicate hostnames and admins: under a name that is no Kerberos principal stands a node account, under a Kerberos principal a Kerberos account, and under any other name nothing. |
| `Accounts.DirectAccountsArePinned` | platform/keysystem/worldconfig/keyserver.go:21-55 | An account may authenticate directly if and only if its principal is no Kerberos principal; it is then the account of a node of that name, limited to that node's address. |
| `Accounts.PrivilegeHolders` | platform/keysystem/worldconfig/keyserver.go:104-252 | Only a node's own account can renew its keygranting certificate, in its own name and for 40 days; only supervisors can impersonate, and only Kerberos accounts; only supervisors and Kerberos accounts can grant bootstrap tokens, for nodes and one hour. |
| `Accounts.GrantsForNodeAccount` | platform/keysystem/worldconfig/keyserver.go:144-252 | The map filled step by step, with its conditions on the kind of node, is the table of grants that GrantTable.TableExactly writes out. |
| `Accounts.GenerateAccounts` | platform/keysystem/worldconfig/keyserver.go:21-89 | The heap-built table is the one that GrantTable.TableExactly writes out, and the groups that the privileges captured before they were filled hold the complete membership in the end. |
| `GrantTable.TableExactly` | platform/keysystem/worldconfig/keyserver.go:21-252 | What is in that table, written out: who is registered, which of several accounts counts, from which address it may authenticate, and for each API name and kind of account the authority, lifespan, common name, names, organizations or principals of the grant; an account holds these privileges and no others. |
| `GrantTable.PrincipalsAre` | platform/keysystem/worldconfig/keyserver.go:37-72 | Kerberos principals are exactly the metrics principal, the root admins and, if there are any, the host principals of supervisors; nodes go by host name and external domain. |
| `GrantTable.WhoIsMaster` | platform/keysystem/worldconfig/keyserver.go:104-252 | Over the whole table a grant names system:masters if and only if it is a supervisor's grant-kubernetes-supervisor or an admin's access-kubernetes. |
| `TokenRegistry.Claim` | platform/keysystem/keyserver/token/scoped/token.go:19-33 | A claim succeeds if and only if the token has not expired and its sync.Once has not run; the Once has run afterwards exactly if it had or the claim succeeded. |
| `TokenRegistry.Registry.LookupToken` | platform/keysystem/keyserver/token/registry.go:16-24 | Finds the token registered under a string, whether or not it has expired. |
| `TokenRegistry.Registry.ExpireOldEntries` | platform/keysystem/keyserver/token/registry.go:37-46 | The deleting loop leaves exactly the entries whose expiry had not passed at their own clock reading. |
| `TokenRegistry.Registry.GrantToken` | platform/keysystem/keyserver/token/registry.go:26-53 | Expired entries go; then either the string was still in use and nothing is added, or a fresh unclaimed token for the subject and lifespan is registered under it. |
| `TokenRegistry.Registry.Verify` | platform/keysystem/keyserver/verifier/token.go:25-39 | The principal of a bootstrap token is returned exactly if the token is registered, unexpired and unclaimed, and the token is then claimed. |
| `KeyserverRun.EveryRunIsSafe` | platform/keysystem/keyserver/keyapi/api.go:50-74 | The invariant that ties registry, grants, claims, certificates and authentications together holds after every interleaving of any number of requests with a non-decreasing clock. |
| `KeyserverRun.ClaimsAreUnique` | platform/keysystem/keyserver/token/scoped/token.go:19-33 | Over all runs, each grant is claimed at most once, by a request that presented its string, with its expiry check made no later than its expiry, even by a request that holds a token whose entry has gone. |
| `KeyserverRun.UnexpiredTokensDiffer` | platform/keysystem/keyserver/token/registry.go:26-53 | Over all runs, no two unexpired grants in the registry share a token string. |
| `KeyserverRun.AcceptedRequests` | platform/keysystem/keyserver/keyapi/api.go:38-74 | A request is accepted only as a node of the setup, from that node's address, with a token granted for that node and claimed at that moment, or a keygranting certificate of its name that was within its validity at that moment. |
| `KeyserverRun.ChainOfCustody` | platform/keysystem/keyserver/authorities/tls.go:77-136 | Every keygranting certificate goes back, through requests that all authenticated under its own name, to a claimed token granted for that name or to a certificate minted by keyinitadmit, whose name is the keyserver's. |
| `KeyserverRun.AllAuthorityIsMinted` | platform/keysystem/keyinitadmit/keyinitadmit.go:38-54 | Every accepted request descends, through certificates and tokens of whatever principals, from a certificate minted by keyinitadmit. |
| `KeyserverRun.NothingBeforeAdmit` | platform/keysystem/keyinitadmit/keyinitadmit.go:38-54 | Until keyinitadmit has run, no request is accepted, and no token or certificate exists. |
| `KeyserverRun.OnlySupervisorsGrantTokens` | platform/keysystem/keyserver/account/privileges.go:38-50 | Every grant was made, for a node and for exactly one hour, by a request that authenticated as a supervisor node. |
| `KeyserverRun.EveryNodeCanBootstrap` | platform/keysystem/worldconfig/keyserver.go:144-155 | The other side of the coin: if the keyserver is named after a supervisor, then for every node of every setup whose name is not also a Kerberos principal's there is a run, with any token string, in which it bootstraps and gets a keygranting certificate of its own name. |
| `KeyserverRun.ForceChangesOnce` | platform/keysystem/keyserver/operation/operation.go:22-67 | At any three moments while a request is served, if the account in force differs at the first two it is the same at the last two, and the change was from a supervisor to a Kerberos principal. |
| `Issued.EveryCertificateIsGranted` | platform/keysystem/keyserver/account/privileges.go:26-36 | Over all runs, every certificate signed for a request, TLS or SSH, has the authority, validity, kind, common name, names and organizations of a grant in the account table, held by the principal of the request or by a Kerberos principal that the request has impersonated before, under an API name that the request asked for. |
| `Issued.GrantedByName` | platform/keysystem/worldconfig/keyserver.go:104-252 | So it is one of those that are written out for admins and for nodes. |
| `Issued.WorkerCertificates` | platform/keysystem/worldconfig/keyserver.go:216-227 | A certificate for grant-kubernetes-worker is for system:node and the host name of a master or worker of that DNS name, in the group system:nodes, for thirty days. |
| `Issued.OnlySupervisorsGetMasters` | platform/keysystem/worldconfig/keyserver.go:109-124 | Over all runs, a certificate with the organization system:masters is only ever signed for a request that authenticated as a supervisor. |
| `Issued.EveryTokenIsAskedFor` | platform/keysystem/keyserver/account/privileges.go:38-50 | Over all runs, every token is for the node named in the body of an operation under the name of a bootstrap privilege, in its request. |
| `Issued.MintedExactly` | platform/keysystem/keyinitadmit/keyinitadmit.go:38-38 | What keyinitadmit mints is a keygranting certificate in the keyserver's name, for ten minutes, with no other names and no organizations. |
| `Issued.KeyserverIsNamed` | platform/keysystem/worldconfig/keyserver.go:280-290 | The keyserver goes by the DNS name of the last supervisor, and by none if there is none. |
| `ServedAlone.ServedAloneIsRunBatch` | platform/keysystem/keyserver/operation/operation.go:22-67 | The steps of a request that is served without interleaving end with the account in force, the registry and the failure, if any, of Batch.RunBatch on its remaining operations. |
| `ServedAlone.WorldAgrees` | platform/keysystem/worldconfig/keyserver.go:21-89 | For every setup both models of a batch consult the same accounts and groups. |
| `Batch.RunBatchSplit` | platform/keysystem/keyserver/operation/operation.go:22-46 | A batch in two parts is the first part, and if that did not fail the second part with the account and registry that the first has left. |
| `Batch.Server.InvokeAPIOperation` | platform/keysystem/keyserver/operation/operation.go:48-67 | Result, account in force and registry after one operation, for each kind of privilege and each error; the lemmas of Responses say what is answered. |
| `Batch.Server.InvokeAPIOperationSet` | platform/keysystem/keyserver/operation/operation.go:22-46 | The loop over the shared context returns all responses in order or the first error, and leaves the registry effects of the operations up to there. |
| `Batch.ImpersonatedTarget.SendRequests` | platform/keysystem/api/reqtarget/impersonate.go:28-42 | If the user may be impersonated, the answer and the registry are those of the same batch sent by the user; if not, the request fails and changes nothing. |
| `Batch.MakeImpersonated` | platform/keysystem/api/reqtarget/impersonate.go:13-26 | A target is made for a user in scope exactly if neither name is empty, never for one out of scope, and the probe changes nothing. |
| `Batch.Transparent` | platform/keysystem/api/reqtarget/impersonate.go:28-42 | With the impersonating operation in front, a batch gives the same responses one place later, the same failure and the same registry as the user's own batch. |
| `Batch.SupervisorsImpersonate` | platform/keysystem/keyserver/account/privileges.go:52-67 | Any supervisor may impersonate exactly the Kerberos principals, and none of them can impersonate any further. |
| `Responses.LocalConfIsRead` | platform/keysystem/worldconfig/keyserver.go:130-142 | The text generated for a node whose names are plain is read as exactly that node's five settings. |
| `Responses.OwnSettingsAreAnswered` | platform/keysystem/keyserver/account/privileges.go:69-76 | A node account that sends get-local-config with an empty body is answered a text that reads as its own settings. |
| `Responses.SignedIsAnswered` | platform/keysystem/keyserver/account/privileges.go:26-36 | An operation that signs answers what was signed, and fails exactly if signing fails; account and registry stay. |
| `Responses.TokenIsAnswered` | platform/keysystem/keyserver/account/privileges.go:38-50 | A bootstrap operation answers the string under which there is then an entry for the node named, for an hour; it fails exactly if no node was named or the string is in use; of other entries only expired ones go. |
| `Responses.KeyIsConfined` | platform/keysystem/keyserver/account/privileges.go:78-85 | Whatever batch an account without the fetch privilege sends, impersonations included, its whole outcome is the same under any two service account keys. |
| `Responses.MastersFetchKey` | platform/keysystem/keyserver/account/privileges.go:78-85 | Exactly the accounts of masters hold that privilege, and they are answered the key, for an empty body only. |
| `ClientView.ForbiddenIsSeen` | platform/keysystem/api/endpoint/endpoint.go:97-103 | A client sees a batch as forbidden if and only if its first failing operation names an API that the account then in force lacks. |
| `ServerCert.ConfiguredKeyserver.GetValidServerCert` | platform/keysystem/keyserver/keyapi/api.go:80-112 | Returns the cached certificate if more than the margin is left, and otherwise signs, caches and returns a new one, unless a later step fails. |
| `ServerCert.CallExactly` | platform/keysystem/keyserver/keyapi/api.go:80-112 | While more than five minutes are left a call returns the cached certificate and signs nothing; otherwise it signs one for a day, in whole seconds, which is cached and returned unless something fails, and then the cache stays. |
| `ServerCert.MarginIsKept` | platform/keysystem/keyserver/keyapi/api.go:80-112 | Over any run of calls, each certificate returned has more than RenewalMargin left when the call decided. |
| `ServerCert.SigningsAreSpaced` | platform/keysystem/keyserver/keyapi/api.go:80-112 | After a signing that is cached, the next signing is at least ValidityInterval minus RenewalMargin, less one second, later. |
| `ServerCert.LostCertificatesAreSignedAgain` | platform/keysystem/keyserver/keyapi/api.go:80-112 | Soon after a signing, the next call signs again if and only if the first certificate was lost before it was cached. |
| `ServerCert.TwoSignings` | platform/keysystem/keyserver/keyapi/api.go:80-112 | A run of two calls a second apart that both sign: the first loses its certificate and returns none, the second returns one. |
| `ServerCert.SigningRate` | platform/keysystem/keyserver/keyapi/api.go:80-112 | Between the first and the last of n cached signings lies at least (n - 1) times that spacing. |
| `Keyclient.KeyreqNeverBacksOff` | platform/keysystem/keyclient/actions/keyreq/keyreq.go:107-123 | Because PostJSON wraps errors, no answer whatever makes a request for a certificate back off. |
| `Keyclient.DownloadBacksOff` | platform/keysystem/keyclient/actions/download/fetchers.go:42-70 | A download from the API backs off, for twelve hours exactly, if and only if it was answered that the operation is forbidden. |
| `Keyclient.BootstrapBacksOff` | platform/keysystem/keyclient/actions/bootstrap/bootstrap.go:58-110 | A bootstrap that gets as far as asking backs off, for twelve hours exactly, if and only if it was answered that the operation is forbidden. |
| `Effects.HostnameIsSet` | platform/keysystem/keyclient/actions/hostname/hostname.go:32-58 | From the local.conf that the keyserver has written for a node, the machine gets exactly that node's host name, and the action reports if and only if it was another. |
| `Effects.HostnameFromText` | platform/keysystem/keyclient/actions/hostname/hostname.go:32-58 | From any text the host name is the value of HOST_NODE; without one, or when a call fails, nothing changes. |
| `Effects.TouchesOnlyItsOwn` | platform/keysystem/worldconfig/keyclient.go:18-171 | An action changes no file but its own, and a bootstrap the token; it writes a key or the server's answer, never an empty one. |
| `Effects.MemoryFollowsFiles` | platform/keysystem/keyclient/state/state.go:49-61 | A new Keygrant is what the granting certificate on disk then says, and only ReloadHostname changes the host name. |
| `Effects.KeyIsMade` | platform/keysystem/keyclient/actions/keygen/keygen.go:16-46 | When everything works, a key is made exactly if there is none. |
| `Effects.BootstrapWorks` | platform/keysystem/keyclient/actions/bootstrap/bootstrap.go:20-110 | When everything works, a node with a key and a token and no Keygrant stores and loads its first certificate, and the token is gone. |
| `Effects.TokenIsUsedUp` | platform/keysystem/keyclient/actions/bootstrap/bootstrap.go:69-110 | A token that the server has accepted is removed even if the certificate can then not be written or loaded. |
| `Effects.TokenIsKept` | platform/keysystem/keyclient/actions/bootstrap/bootstrap.go:69-91 | One that the server has not accepted, or that cannot be removed, is kept, and nothing is stored. |
| `Effects.DownloadWorks` | platform/keysystem/keyclient/actions/download/download.go:54-106 | When everything works, a copy that is missing or too old becomes exactly what the server has answered, and any other stays. |
| `Effects.DownloadWithoutCommand` | platform/keysystem/keyclient/actions/download/download.go:80-106 | Without its command a new cluster authority is stored but not reported. |
| `Effects.RenewalWorks` | platform/keysystem/keyclient/actions/keyreq/keyreq.go:53-164 | When everything works, a certificate that is due becomes the server's, and the granting one is loaded; a missing key or Keygrant blocks; others stay. |
| `Effects.RenewalNotLoaded` | platform/keysystem/keyclient/actions/keyreq/keyreq.go:77-144 | A granting certificate that cannot be loaded is stored, but neither used nor reported. |
| `Effects.WaitsItsTime` | platform/keysystem/keyclient/state/state.go:20-47 | An action whose API is not to be asked again yet does nothing at all. |
| `Effects.HostnameIsBlocked` | platform/keysystem/keyclient/actions/hostname/hostname.go:60-65 | Without a configuration file the host name action is blocked. |
| `Effects.CycleExactly` | platform/keysystem/worldconfig/keyclient.go:18-171 | ConvergeState performs exactly these actions: which authority, file or API each path is downloaded from and how often, and which API renews which service how long in advance. |
| `Effects.RightGrantRenews` | platform/keysystem/worldconfig/keyclient.go:87-165 | Wherever a node holds the grant by which a service is renewed, the grant is for that service: its authority and its common name or names. |
| `ActLoop.ClientState.ReloadKeygrantingCert` | platform/keysystem/keyclient/state/state.go:49-61 | Replaces the Keygrant exactly if both files are there and can be loaded; otherwise it stays as it was. |
| `ActLoop.ClientState.ReplaceKeygrantingCert` | platform/keysystem/keyclient/state/state.go:63-77 | Writes the file even when the reload then fails. |
| `ActLoop.NewActionContext.GenerateKey` | platform/keysystem/keyclient/actions/keygen/keygen.go:16-46 | Updates files and report as specified: a key is made exactly if none is there. |
| `ActLoop.NewActionContext.Bootstrap` | platform/keysystem/keyclient/actions/bootstrap/bootstrap.go:20-110 | Updates files, Keygrant, back-off and report as specified, with the token removed before the certificate is stored. |
| `ActLoop.NewActionContext.Download` | platform/keysystem/keyclient/actions/download/download.go:54-106 | Updates files, back-off and report as specified, for authorities, static files and the API. |
| `ActLoop.NewActionContext.ReloadHostnameFrom` | platform/keysystem/keyclient/actions/hostname/hostname.go:32-65 | Updates host name and report as specified; a missing file blocks. |
| `ActLoop.NewActionContext.RequestOrRenew` | platform/keysystem/keyclient/actions/keyreq/keyreq.go:53-164 | Updates files, Keygrant and report as specified: when to renew, what blocks, and the reload of the granting certificate. |
| `ActLoop.NewActionContext.ConvergeState` | platform/keysystem/worldconfig/keyclient.go:18-171 | One cycle is the fixed list of actions, in order, each on the state that the one before has left. |
| `BringUp.OneCycleSetsUp` | platform/keysystem/worldconfig/keyclient.go:18-171 | From a bootstrap token and sshd's key, a single cycle in which everything works leaves a node with all keys, all certificates, authorities and settings that it may have, its host name, a loaded Keygrant, no token and nothing blocked. |
| `ActLoop.Run` | platform/keysystem/keyclient/actloop/actloop.go:56-87 | Runs the cycles one after the other, and calls onReady exactly at the cycles that are quiet, not blocked, and first or after one that performed. |
| `ActLoop.StretchIsAnnouncedOnce` | platform/keysystem/keyclient/actloop/actloop.go:68-86 | In a maximal stretch of quiet cycles, onReady is called if and only if the first is not blocked, and then at that one only; a stretch that begins blocked is never announced. |
| `BlockedStretch.FreedButNotAnnounced` | platform/keysystem/keyclient/actloop/actloop.go:68-86 | A run of two quiet cycles of the real actions, of which the first is blocked, since no certificate can be read, and the second is not: onReady is never called. |
| `ActLoop.AnnouncementOpensStretch` | platform/keysystem/keyclient/actloop/actloop.go:68-86 | Every call of onReady is at the first cycle of a maximal quiet stretch. |
| `ActLoop.AnnouncementsAreSeparated` | platform/keysystem/keyclient/actloop/actloop.go:56-87 | Between two calls of onReady some cycle has performed an action. |
| `ActLoop.ReadyAtMost` | platform/keysystem/keyclient/actloop/actloop.go:56-87 | Within a day onReady is called at most 36 times, plus once for each cycle that misreads a certificate. |
| `Convergence.StepRaisesNothing` | platform/keysystem/worldconfig/keyclient.go:18-171 | No action, failing or not, gives any action more to do. |
| `Convergence.PerformingIsProgress` | platform/keysystem/keyclient/actions/keyreq/keyreq.go:146-164 | An action that performs leaves itself less to do, if and only if it has not replaced a certificate that it failed to read and that was not due. |
| `Convergence.MisreadIsNeverQuiet` | platform/keysystem/keyclient/actions/keyreq/keyreq.go:53-76 | A certificate file that exists but cannot be read is renewed in every cycle that works. |
| `Convergence.CycleProgress` | platform/keysystem/worldconfig/keyclient.go:18-171 | The measure never rises over a cycle, and falls whenever the cycle performs anything without such a misreading. |
| `Convergence.MeasureOfActions` | platform/keysystem/worldconfig/keyclient.go:18-171 | The measure of the real list of actions is at most 35 in any state. |
| `Convergence.GoesQuiet` | platform/keysystem/keyclient/actloop/actloop.go:56-87 | In any window of a day, from any state and with any failures, at most 35 cycles perform anything, plus those that misread; so the loop goes quiet. |
| `Convergence.QuietMeansDone` | platform/keysystem/worldconfig/keyclient.go:18-171 | When nothing fails, an action that neither performs nor blocks changes nothing and is up to date, backing off, or without a token or a host name to use. |
| `Convergence.ServerIsGenerous` | platform/keysystem/worldconfig/keyserver.go:144-252 | Every certificate that the keyserver signs for an API that the keyclient renews outlasts its time in advance by more than the day's window. |
| `Renewal.NoLapse` | platform/keysystem/keyclient/actions/keyreq/keyreq.go:53-144 | If cycles start at most P apart and last at most D, no renewal fails more than k times in a row, (k + 1) * P + D is at most InAdvance, which is less than the lifespan by more than a second, and no reload is missed, then at every moment every certificate on disk and the Keygrant are unexpired; jointly for all eleven services. |
| `Renewal.MissedReloadIsFinal` | platform/keysystem/keyclient/actions/keyreq/keyreq.go:77-93 | Once the granting certificate is written but not loaded, the Keygrant in memory is never replaced again, and ends within InAdvance. |
| `Renewal.NoLapseExactly` | platform/keysystem/keyclient/actions/keyreq/keyreq.go:125-144 | On a run that lasts past every missed reload by InAdvance, nothing lapses if and only if no reload was missed. |
| `Renewal.KeyserverIsAdequate` | platform/keysystem/worldconfig/keyclient.go:87-165 | With the keyserver's 40, 60 and 30 days for the granting, the SSH host and every other certificate, and the keyclient's 14 and 7 days in advance, the bounds hold exactly if (k + 1) * P + D is at most a week. |
| `Renewal.ServerLifespans` | platform/keysystem/worldconfig/keyserver.go:155-250 | For every API that the keyclient renews, the keyserver signs for exactly the 40, 60 or 30 days on which those bounds are computed. |
| `Renewal.BootstrapStarts` | platform/keysystem/keyclient/actions/bootstrap/bootstrap.go:93-110 | After a first bootstrap that loads its certificate, the keyclient is in a state from which NoLapse applies. |
| `MissedReload.OneMissedReloadLapses` | platform/keysystem/keyclient/actions/keyreq/keyreq.go:77-93 | A concrete run of four weekly cycles with the keyserver's lifespans: everything that NoLapse asks for holds but that no reload is missed, and the Keygrant runs out. |
| `HonestKeyserver.RenewalIsHonest` | platform/keysystem/keyserver/authorities/tls.go:77-136 | In every run of the keyserver, a renewal of the Keygrant is as NoLapse assumes: accepted while the certificate presented was valid, and answered with one that lasts forty days from then, less a second. |
| `HonestKeyserver.BootstrapIsHonest` | platform/keysystem/keyclient/actions/bootstrap/bootstrap.go:93-110 | In every run of the keyserver, a first bootstrap whose certificate is loaded leaves the keyclient in a state from which NoLapse applies. |
| `OperationTrees.ExecutionIsDisciplined` | platform/spire/src/command.py:286-319 | Whatever raises: the callbacks run are a prefix of the program, each inside exactly its own contexts; every entered context is exited once, innermost first; only exits follow an exception; names printed are a prefix of the dry run's. |
| `OperationTrees.ListIsDisciplined` | platform/spire/src/command.py:286-319 | The same inside any open contexts, at any depth. |
| `OperationTrees.OutlineShowsShape` | platform/spire/src/command.py:286-319 | The indented names of a dry run determine how the program is nested. |
| `OperationBuilder.Operations.AddOperation` | platform/spire/src/command.py:223-238 | Adds to the object at the end of the chain of open contexts, and to no other. |
| `OperationBuilder.Operations.Run` | platform/spire/src/command.py:286-319 | Execution of the objects has the outcome of the tree they represent; a dry run prints its outline, runs no callback and enters no context. |
| `OperationBuilder.Schedule` | platform/spire/src/command.py:231-277 | Scheduling a program with nested with-statements and subcommands through the root builds the nested tree in the innermost open object, and leaves every other object as it was. |
| `OperationBuilder.BuildAndRun` | platform/spire/src/command.py:231-319 | A program scheduled on a new object and called does what the nested program does, or prints its outline. |
| `HostsFile.RemoveOnly` | platform/spire/src/virt.py:133-163 | hosts_down leaves a file alone if and only if it is clean: empty or ending in a newline, without carriage returns, and without a line of ours. |
| `HostsFile.AddThenRemove` | platform/spire/src/virt.py:133-163 | For any host names, hosts_up and then hosts_down give the text back if and only if it is clean and every line added is one that hosts_down looks for; for names without tabs, which is all that hosts_up checks, if and only if it is clean and every name is read back. |
| `HostsFile.AddsOursExactly` | platform/spire/src/virt.py:133-163 | Of names without tabs, every line added is one that hosts_down looks for if and only if no address has a line end and each name has none, or only a carriage return at its end, without which it is the name of a node with the same address. |
| `HostsFile.WellNamedAddsOurs` | platform/spire/src/virt.py:133-163 | So is every line for names and addresses without tabs and line ends. |
| `HostsFile.NewlineStays` | platform/spire/src/virt.py:149-163 | A name with a newline, which hosts_up accepts and whose lines hosts_down leaves in the file. |
| `HostsFile.CarriageReturnStays` | platform/spire/src/virt.py:149-163 | A name that ends in a carriage return, whose line stays; and is taken out when the name without it is also a node's. |
| `Firewall.DeletionsRestore` | platform/spire/src/virt.py:116-130 | Deleting first occurrences undoes insertions at the head if and only if each rule is deleted at least as often as inserted, and exactly as often if it was there before. |
| `Firewall.RulesRestored` | platform/spire/src/virt.py:116-130 | After the first n insertions, all deletions restore the list if and only if no rule still to be inserted was in it. |
| `VirtNet.CommandKeeps` | platform/spire/src/virt.py:68-97 | Every command of the scripts, up or down, leaves the network outside the plan's names as it was. |
| `VirtNetUp.UpIsUp` | platform/spire/src/virt.py:68-183 | If all up commands work, the bridge is up, with the access link as a VLAN over it, up, and the address; each tap is up, promiscuous and a port of the bridge; the five rules, written out, are first in their chains; /etc/hosts has one more line for each node; and the rest of the host is as before. |
| `VirtNetUp.UpWorksExactly` | platform/spire/src/virt.py:68-183 | On a host without the plan's names they all work if and only if the names of taps, bridge and access link are distinct and those of the nodes have no tabs. |
| `VirtNetUp.SuccessMeansAllWasThere` | platform/spire/src/virt.py:77-97 | The down commands on links all work only if every link, port and address of the plan was there. |
| `VirtNet.NetIsDown` | platform/spire/src/virt.py:77-97 | From whatever part of the network exists, the down commands, each of which may have nothing to undo but none of which fails for another reason, give back the links, ports and addresses from before. |
| `VirtNetFaults.NetIsDownExactly` | platform/spire/src/virt.py:77-97 | Whichever down commands fail, for whatever reasons, nothing outside the plan's names changes, and the network from before is back if and only if for each link of the plan that was there its own deletion works, for the bridge also what sets it down if it was up, or, for a VLAN, that of the link that it is over. |
| `VirtNetFaults.PlanLinkGoes` | platform/spire/src/virt.py:77-97 | The same for each link: it is left if and only if it was there and those commands do not work. |
| `VirtNetFaults.NetIsDownAt` | platform/spire/src/virt.py:77-97 | With names of their own the condition is on three kinds of places in the sequence of commands: the third for each tap, the last two, and the deletion of the access link unless it goes with the bridge. |
| `VirtNetFaults.FaultyRollback` | platform/spire/src/virt.py:166-200 | After any number of the up commands and with any of the down commands failing: links, firewall and /etc/hosts are each as before under an exact condition on which commands work and what was there before, and the whole host under the three together. |
| `VirtNetFaults.LinksAreDownAt` | platform/spire/src/virt.py:68-97 | After any number of the up commands, links, ports and addresses are as before if and only if the commands at those places work. |
| `VirtNetFaults.OneTapIsLeft` | platform/spire/src/virt.py:93-97 | A run that goes up on a bare host as far as one tap and then down, in which the deletion of the tap fails: the tap is left although every other command works. |
| `VirtNet.Rollback` | platform/spire/src/virt.py:166-200 | After any number of the up commands, net_down_inner restores links, ports and addresses; the firewall if and only if no rule not yet inserted was there before; /etc/hosts if and only if it was clean and, once hosts_up has run, every name is read back. |
| `VirtNet.EqualRuleIsLost` | platform/spire/src/virt.py:116-130 | A host whose own firewall rule is deleted when the first up command fails. |
| `VirtNet.LastLineIsEnded` | platform/spire/src/virt.py:147-163 | A host whose /etc/hosts, one line without a newline, is changed when the first up command fails. |
| `VirtNet.UpThenDown` | platform/spire/src/virt.py:166-200 | A full up and down restores everything, firewall lists with equal rules included, if and only if /etc/hosts was clean and every name is read back. |
| `VirtNetRun.Machine.NetDownInner` | platform/spire/src/virt.py:186-200 | Raises, with nothing done, if there is no upstream link or hosts_down cannot write; otherwise executes all commands, whichever fail, and reports whether all of them worked. |
| `VirtNetRun.Machine.NetUpInner` | platform/spire/src/virt.py:166-183 | On success all commands have worked and the network is up as VirtNetUp.IsUp writes it out; on a failure in the try block exactly those before it have, and the rest is taken down, unless that raises; the host is then as it was if and only if the condition of FaultyRollback holds; a failure before the block changes nothing. |
| `VirtNetUndo.RoutingUndone` | platform/spire/src/virt.py:116-130 | Deleting all rules in the opposite order works and gives the lists back, whatever rules were there. |
| `VirtNetUndo.FullDownSucceeds` | platform/spire/src/virt.py:186-230 | After a full net_up_inner every command of net_down_inner works, so the end of net_context does not raise. |
| `VirtNetUndo.FullDownReports` | platform/spire/src/virt.py:186-230 | So net_down_inner reports success if no command fails by itself. |
| `VirtNetRun.StrictIsLoose` | platform/spire/src/virt.py:56-61 | When no command fails, sudo and sudo_ok scripts have the same effect. |
| `Shell.EscapedIsRead` | platform/spire/src/setup.py:12-14 | An escaped parameter is read as one quoted word with exactly its characters. |
| `Shell.RedirectedIsRead` | platform/spire/src/setup.py:17-20 | Any script that the tokenizer can read alone is, with redirect_to, read as the same tokens in a subshell whose output goes to exactly that path; scripts with expansions, comments or here-documents outside quotes are not read at all. |
| `Shell.InDirectoryIsRead` | platform/spire/src/setup.py:21-22 | Any such script with in_directory is read after a cd to exactly that path. |
| `Shell.SshCmd` | platform/spire/src/setup.py:17-29 | For all arguments, directories and paths, reading the script that is sent gives exactly the intended words and operators. |
| `Versions.StrictTotalOrder` | platform/bazel/version-compute.py:19-29 | is_later is irreflexive, asymmetric and total on lists of numbers. |
| `Versions.LaterIsTransitive` | platform/bazel/version-compute.py:19-29 | is_later is transitive. |
| `Versions.AgreesWithDebian` | platform/bazel/version-compute.py:19-38 | On dotted numbers, is_later is the order of section 5.6.12 of the Debian Policy Manual. |
| `Versions.IncrementVersion` | platform/bazel/version-compute.py:41-45 | The result is a dotted number list that differs in its last number only, which is one more; there is none if and only if the last number has a leading zero and another digit. |
| `Versions.CanonicalExactly` | platform/bazel/version-compute.py:41-45 | A string of digits is what str writes of its value if and only if it has no leading zero before another digit. |
| `Versions.ProductionIsDotted` | platform/bazel/version-compute.py:15-15 | The assertion accepts exactly three numbers with dots between them. |
| `VersionHistory.ComputeVersion` | platform/bazel/version-compute.py:48-55 | The script computes the specified version, or fails on a bad hash, a bad production version or a number that cannot be incremented. |
| `VersionHistory.VersionExactly` | platform/bazel/version-compute.py:15-55 | For three numbers and 64 letters or digits: production's version if the package is new, the later of its own and production's if the hash is the same, and otherwise the later of its own with the last number increased and production's; production's if they are equal; failure exactly if that number has a leading zero. |
| `VersionHistory.BadInputFails` | platform/bazel/version-compute.py:15-16 | Any other production version or hash fails. |
| `VersionHistory.ComputedIsNotEarlier` | platform/bazel/version-compute.py:48-55 | The version is never earlier than production's or the last one, and later than the last one if the hash is new. |
| `VersionHistory.UnchangedIsKept` | platform/bazel/version-compute.py:48-55 | With the same hash the version stays as it was, unless production has overtaken it. |
| `VersionHistory.ComputeCache` | platform/bazel/cache-compute.py:13-23 | The new cache holds the packages of this build only, each with its hash and version; a repeated name fails. |
| `VersionHistory.CacheExactly` | platform/bazel/cache-compute.py:13-23 | The cache is written if and only if the names are distinct and every version can be computed, and then has exactly one entry for each build, with its hash and version. |
| `VersionHistory.VersionsGrow` | platform/upload/src/doupload.py:46-50 | Over uploads that all contain the package, its version never goes back, and goes forward whenever the hash changed in between. |
| `VersionHistory.VersionNamesOneHash` | platform/upload/src/doupload.py:46-50 | Over such uploads, versions that Debian considers equal name equal hashes. |
| `VersionHistory.AbsenceForgets` | platform/upload/src/doupload.py:46-50 | A package that was not in the last upload starts again at the production version. |
| `VersionHistory.AbsenceExactly` | platform/upload/src/doupload.py:46-50 | After an absence the version is later than any earlier one exactly if production's is, and it names a second hash exactly if production's equals that one and the hash is another. |
| `VersionHistory.DroppedPackageReusesVersion` | platform/upload/src/doupload.py:46-50 | So a package that is dropped and comes back can have one version for two hashes: a history in which it does. |
| `Apt.BackwardIsForward` | platform/spire/src/packages.py:56-79 | Reading from the last line backwards finds the fields that one pass from the front finds, and fails exactly where that fails. |
| `Apt.ParseAptKvs` | platform/spire/src/packages.py:56-79 | The loops that pop lines compute the backward reading and put the fields into a map. |
| `Apt.ParsedIsForward` | platform/spire/src/packages.py:56-79 | The program succeeds exactly on texts that read well from the front and give each key once. |
| `AptPrinting.PrintedIsParsed` | platform/spire/src/packages.py:56-79 | A text written from any fields, with continuation lines and empty lines behind, is read back as the map of the fields without the blank lines at their ends, unless two have the same key. |
| `AptPrinting.ValuesAreRead` | platform/spire/src/packages.py:56-79 | What is read of fields with different keys: those keys and no others, each with its lines up to the last that is not blank and newlines between them. |
| `AptPrinting.FieldsAreReadExactly` | platform/spire/src/packages.py:56-79 | Reading the lines of any fields finds exactly those fields if and only if none of them ends in a blank continuation line. |
| `AptPrinting.PrintedIsParsedExactly` | platform/spire/src/packages.py:56-79 | The program reads back the map of the fields as written if and only if no two have the same key and none ends in a blank continuation line, but for a field that consists of one empty line. |
| `AptPrinting.TrailingBlankIsLost` | platform/spire/src/packages.py:56-79 | The program reads a text with one such field as another map than was written. |
| `AptLists.ParseAptKvList` | platform/spire/src/packages.py:117-129 | The loop over sections computes the specified lookup. |
| `AptLists.ListIsParsed` | platform/spire/src/packages.py:117-129 | A list of stanzas that is written out, with any number of newlines behind it, is read back, each under its sort key and without the blank lines at the ends of fields, if and only if each gives every key once, has the sort key, and shares its value with no other. |
| `Substitution.SubstituteVars` | platform/util/strutil/substitute.go:9-32 | The loop over the pieces computes what a single pass over the characters computes, and fails where that fails. |
| `Substitution.SplitIsScan` | platform/util/strutil/substitute.go:9-32 | Cutting the text at all parentheses finds the parse of the single-pass scanner. |
| `Substitution.SubstitutedExactly` | platform/util/strutil/substitute.go:9-32 | Success with r if and only if the text is balanced, not nested, all variables have values that are not empty, and r has each variable replaced once. |
| `Substitution.OneTemplate` | platform/util/strutil/substitute.go:9-32 | There is only one way to cut a text into pieces and variables. |
| `Substitution.SubstituteAllVars` | platform/util/strutil/substitute.go:34-44 | All texts are substituted in order, or none if one fails. |
| `Templates.Template.Fill` | platform/spire/src/template.py:12-35 | The loops over lines and holes compute the specified text; each hole is followed by a strictly shorter rest of the line. |
| `Templates.FilledExactly` | platform/spire/src/template.py:20-35 | A line is filled in with r if and only if it can be cut into text and defined keys, and r has each key replaced once. |
| `Templates.OneParse` | platform/spire/src/template.py:20-35 | There is only one way to cut a line. |
| `Templates.KeyWithBraces` | platform/spire/src/template.py:20-35 | A key with two opening braces in it is looked up as one key. |
| `Templates.TemplateExactly` | platform/spire/src/template.py:12-35 | A template succeeds if and only if all conditions are defined and all lines shown can be filled in; the result is the shown lines in order, whatever faults hidden lines have. |
| `Templates.ConditionDecides` | platform/spire/src/template.py:12-18 | A line that begins with a condition in brackets is filled in without it if the condition holds, left out if not, and fails if it is not defined. |
| `Templates.WithoutCondition` | platform/spire/src/template.py:12-18 | Any other line is filled in as it is. |
| `ConfFiles.ReadConf` | platform/kubernetes/wrapper/wrap.go:14-31 | The loop of GetConf, and of readConfig with the same body, computes the specified map or error. |
| `ConfFiles.RoundTrip` | platform/spire/src/configuration.py:164-183 | What is printed from pairs that the format can carry is read back as their map, values with '=' included. |
| `ConfFiles.ParsedIsCarriable` | platform/keysystem/keyclient/actions/hostname/hostname.go:13-30 | Whatever is read from any text can be carried by the format. |
| `ConfFiles.RoundTripExactly` | platform/keysystem/keyclient/actions/hostname/hostname.go:13-30 | For distinct keys, reading back gives the same map if and only if every pair can be carried. |
| `ConfFiles.RefusedExactly` | platform/keysystem/keyclient/actions/hostname/hostname.go:13-30 | A text is refused if and only if one of its lines, trimmed, is neither empty nor a comment and has no equals sign. |
| `ConfFiles.LocalConfRoundTrip` | platform/keysystem/worldconfig/keyserver.go:133-142 | The local.conf that the keyserver generates reads back as the node's own settings. |
| `Console.LineCollector.Write` | platform/spire/src/virt.py:493-497 | Calls back once for each line completed, and keeps the rest. |
| `Console.Collect` | platform/spire/src/virt.py:488-505 | For every way of cutting a stream into writes, the callbacks after close are its lines and the rest behind the last newline. |
| `Console.CutExactly` | platform/spire/src/virt.py:488-505 | Those lines are the only ones that end in their only newline and make up the stream with a rest that has none. |
| `Console.SegmentsAreStream` | platform/spire/src/virt.py:488-505 | All callbacks one after the other are the stream. |
| `Console.FingerprintExtractor.ProcessLine` | platform/spire/src/virt.py:526-534 | Keeps fingerprints and calls as specified by the lines so far. |
| `Console.FingerprintExactly` | platform/spire/src/virt.py:526-530 | A line with SHA256 and the comment root@temporary-hostname matches, and gives the line without white space around it, with the words no comment instead. |
| `Console.MatchesExactly` | platform/spire/src/virt.py:528-528 | A line matches if and only if both texts occur in it. |
| `Console.FingerprintsInOrder` | platform/spire/src/virt.py:526-530 | The fingerprints kept are those of the matching lines, in their order. |
| `Console.CalledAtMostOnce` | platform/spire/src/virt.py:519-534 | The callback is called if and only if an empty line follows a match, once, with the fingerprints of all matches before the first such line. |
| `Console.Watch` | platform/spire/src/virt.py:381-387 | The call depends on the stream alone, not on how it was read. |

## Left out

- Renewal.NoLapse: the keyclient and the keyserver read one clock, so clock skew between them is not covered.
- Renewal.NoLapse: certificates run out on disk; that the services which use them load the new ones is not covered.
- HonestKeyserver.RenewalIsHonest: is about the Keygrant only; that the answers for the other services last as long as their grants say (ServerLifespans) stays an assumption of NoLapse.
- Renewal.NoLapseExactly: assumes that the granting certificate can be read and lives for more than 28 days and a second; MisreadIsNeverQuiet is about files that cannot be read.
- Convergence.GoesQuiet: the window is one day, the shortest refresh period; after it, downloads are due again.
- ActLoop.Run: sleeping is left out, and cancellation comes between two cycles.
- ActLoop.NewActionContext.ConvergeState: the list of calls is a constant and the method a loop over it; paths are names, and files are written whole or not at all.
- KeyserverRun.EveryRunIsSafe: a restart of the keyserver, which empties the token registry, is not a step; within one process all tokens, certificates and requests are covered.
- Issued.EveryCertificateIsGranted: of a certificate, authority, validity, kind, common name or key id, names or principals, and organizations are modelled; keys, serial numbers, chain verification and net.ParseIP are not part of this model, and the two clock readings of an SSH certificate are one.
- ServerCert.ConfiguredKeyserver.GetValidServerCert: CertLock is held throughout, so concurrent calls are calls one after the other in the order in which they take it.
- Batch.Server.InvokeAPIOperationSet: requests are values; JSON, HTTP and TLS are not part of this model, except that errors of PostJSON are wrapped and counts of responses are checked.
- OperationTrees.ExecutionIsDisciplined: a context whose exit suppresses an exception is not modelled; those of the repository do not.
- OperationBuilder.Schedule: building a program whose with-body raises, which leaves the context open in its owner, is not modelled, nor is print_commands.
- VirtNet.NetIsDown: a down command fails here only when there is nothing to undo, and so in VirtNet.Rollback, VirtNet.UpThenDown and VirtNetUndo.FullDownSucceeds; VirtNetFaults.NetIsDownExactly and FaultyRollback are about commands that fail for other reasons as well.
- VirtNetRun.Machine.NetDownInner: commands act wholly or not at all; reading /etc/hosts and the temporary file always work, so that the copy is what can fail in hosts_down; IP forwarding stays on, as in the source; the upstream link, if it is found, is the one found when going up; determine_topology, which net_down calls once more, gives the same plan.
- VirtNet.RemoveLink: takes VLANs directly over a link with it, but not VLANs over those.
- Shell.RedirectedIsRead: here-documents, and two opening parentheses as the arithmetic command of some shells, are not modelled; a script with an unquoted `<<` is reported as such and is outside the theorem.
- Shell.SshCmd: what reads the script is the tokenizer of a shell; expansions, patterns and comments outside quotes are reported as not modelled, and never occur in what ssh_cmd writes.
- Versions.IncrementVersion: digits are ASCII digits, and numbers are unbounded.
- VersionHistory.BadInputFails: letters and digits are ASCII.
- BringUp.OneCycleSetsUp: services that the node may not have are answered as forbidden; what the keyserver answers to a real node is Responses and Issued.
- VersionHistory.VersionsGrow: computing the hashes, and uploading itself, are not part of this model.
- Apt.ParseAptKvs: which of several faults is reported first is not modelled; every fault is one error.
- Substitution.SubstituteVars: likewise for its three errors.
- Templates.Template.Fill: the value of a key is its text and whether it counts as true; yaml_template is left out.
- Console.Watch: lines are handed over after they have been collected; each line still comes once and in order.
- ConfFiles.ReadConf: reading the file is not part of this model.
- The monitors, the kube launchers, the user-grant page, ISO generation, keytab handling and QEMU processes are I/O without an algorithm to prove.
- ListAuthorities, ValidateStaticFiles and the remaining fetchers of static files would only add easy members.

# Verified model of the self-hosting platform's core

A panel (`apps/control-plane`, `apps/web`) manages agents (`services/agent`) that run on user
machines. This project models the parts of both whose correctness is hard to see by reading, as
Dafny state machines, methods with loops, and specification functions, and proves what they
promise over every input, run and interleaving. `dafny verify dfyconfig.toml` checks it.

How the models are built: code that changes state is a `class` or a `method` proved against a
function on the old state; what the source promises is then proved about that function, mostly over
runs of a step relation, whose steps are the stretches between the points where the source waits.
Some stretches are merged: a method of a class runs uninterrupted, so `Lockout` proves its bound for
logins that do not overlap and `Overlap` proves it again with every Redis command a step of its own;
an alert's sends happen in one stretch between the claim of its row and the report of their errors;
`Tunnel.Server.Relay` reads the session and opens its stream at once, and
`Tunnel.LateRelayReachesNewest` speaks of any steps in between; a whole heartbeat or `get` is a method,
and the licensing machine splits it at its waits;
and the file operations of a certificate command happen in order, without another command between.
Clocks, random identifiers, network answers and cryptography are parameters or steps of an
environment.

| file | component |
|---|---|
| `Lockout.dfy`, `Redis.dfy` | login lockout over expiring Redis keys |
| `Overlap.dfy` | the lockout when logins overlap or die between two Redis commands |
| `Sessions.dfy` | refresh rotation, reuse detection and session epochs |
| `Rotation.dfy` | daemon-secret rotation between panel and agent |
| `FlattenYaml.dfy`, `YamlPrinter.dfy` | the indentation-stack YAML flattener |
| `Inspect.dfy` | what repository inspection gathers from config files |
| `EnvKeys.dfy` | what Go's map order can change in that |
| `Activation.dfy` | license activation, grace window and cache |
| `Restarts.dfy` | the persisted activation dates, in whatever order their updates land, and restarts |
| `Address.dfy` | IP literals and the ranges of the SSRF guard |
| `AddressText.dfy` | that guard, from the text of an address to its verdict |
| `Masonry.dfy` | greedy column assignment |
| `Tunnel.dfy` | the shared session of the tunnel server |
| `Alerts.dfy` | the alert ledger and the node checks that append to it |
| `Invites.dfy` | one-time invites |
| `Certs.dfy` | certificate files and the list generated from them |
| `Paths.dfy` | lexical path containment |
| `Csv.dfy` | the audit export |
| `Text.dfy`, `Numerals.dfy`, `Sorting.dfy` | library functions the code calls |

Where the code does less than a reader might expect, the project proves what it does, with an input:

- Failed logins that overlap escape the lockout: `n` attempts that all pass the lock check before the
  lock is set are all counted (`Overlap.OverlapEscapes`). How far, in general, is bounded by
  `Overlap.OverlappingFailuresBounded`. A login that dies before its PEXPIRE leaves a count that never
  expires (`Overlap.CrashLeavesCount`); `Overlap.CountNeverExpiresExactly` says when a count has no
  expiry.
- A refresh token can be redeemed twice when one of two handlers that read it in time reaches Redis
  after it expired: from max(exp, first redemption + 1 s) on, and never before
  (`Sessions.RedeemedAtMostOnce`, `Sessions.HandlersRedeemTwice`).
- The environment keys of an inspection, as a list, depend on Go's map order exactly when two
  properties of one file give different keys under new names; as a set, exactly when those two give
  one name different contents (`EnvKeys.EnvKeyListDependsOnOrder`, `EnvKeys.EnvKeySetDependsOnOrder`).
- A restart may change the license verdict without forgetting a denial: it goes by the date that
  landed in the row last, and memory by the date recorded last. From any moment on the change is only
  ever a forgotten denial exactly when there is one, or the two dates agree, or both windows have
  passed (`Restarts.RestartForgetsOnlyDenials`). They disagree after two updates that land in the
  wrong order, whichever they are, and when a restart overtakes one or one is lost
  (`Restarts.OverlappingWritesDesync`, `Restarts.InStepExactly`).
- A key of the Free tier that lists modules is never locked (`Activation.FreshGrantsExactly`).
- An incident of a node that is back is never answered when it is not the node's newest among the
  newest 500 incident rows (`Alerts.RecoveryFiresExactly`).
- A work directory that cleans to `/` or `.` makes path resolution fail for every file but `.`
  (`Paths.ResolveExactly`, `Paths.SafeSubdirExactly`).
- A wildcard host shares its certificate files with the bare host (`Certs.WildcardSharesFiles`);
  clean names never do among themselves, and every other name does with one (`Certs.SharesFilesExactly`). Files that reach the directory by another way
  are listed under their own names exactly when those are clean (`Certs.ListedFilesExactly`).
- A call that dies between claiming an invite and its end spends the invite, and nothing else does
  without somebody having it (`Invites.UsedMeansHeldOrCrashed`).
- A rotate request that arrives after the panel abandoned it locks the panel out exactly when the
  panel has since switched to another staged secret (`Rotation.LateDeliveryStrands`). The state file
  is truncated before it is written, so a failed save can leave it unreadable; which failed saves
  make a restart strand the panel is decided exactly by `Rotation.SavesDecideRestart`.

## Model

| member | source | states |
|---|---|---|
| Lockout.AuthService.Login | apps/control-plane/src/modules/auth/auth.service.ts:170-197 | the result and the whole Redis store after one login, by lock state and outcome |
| Lockout.AuthService.RecordLoginFailure | apps/control-plane/src/modules/auth/auth.service.ts:101-125 | the store after one uninterrupted failure: increment, expiry on the first, lock and reset from the fifth |
| Lockout.FailureIsRecorded | apps/control-plane/src/modules/auth/auth.service.ts:101-125 | an unknown user, a wrong password and a wrong code are each rejected and counted: the first opens the window, the fifth sets the lock and drops the count |
| Lockout.OthersAreNotRecorded | apps/control-plane/src/modules/auth/auth.service.ts:170-197 | a locked account answers nothing whatever is sent, a missing code asks for it and leaves the store alone, a sign-in clears count and lock, and no other account is touched |
| Lockout.InvKept | apps/control-plane/src/modules/auth/auth.service.ts:84-137 | between logins that do not overlap a stored count lies in 1..4 and carries an expiry, and so does a lock |
| Lockout.FailuresBounded | apps/control-plane/src/modules/auth/auth.service.ts:37-137 | over any run of logins that do not overlap on the account and never succeed, k windows count at most 5k+3 failures |
| Lockout.BoundIsAttained | apps/control-plane/src/modules/auth/auth.service.ts:37-137 | for every k some run of logins counts exactly 5k+3 |
| Overlap.AloneIsRecordFailure | apps/control-plane/src/modules/auth/auth.service.ts:101-125 | the single commands of a recording, uninterrupted, do what the whole recording does |
| Overlap.OverlappingFailuresBounded | apps/control-plane/src/modules/auth/auth.service.ts:84-125 | with every Redis command a step and processes dying anywhere, k windows count at most 5k+3 failures, plus 5 for each counted under the lock, 1 for each counted while another recording trips it, and 8 for each recording that dies tripping it |
| Overlap.QuietCountIsSound | apps/control-plane/src/modules/auth/auth.service.ts:101-125 | whatever the interleaving and whatever else dies, while no recording on the account is half done and none of it was cut short a stored count lies in 1..4 and carries an expiry |
| Overlap.CountNeverExpiresExactly | apps/control-plane/src/modules/auth/auth.service.ts:101-137 | over every run, deaths included, the count is stored without an expiry iff since the INCR that created it no recording has sent its PEXPIRE or DEL and nobody has signed in |
| Overlap.CrashLeavesCount | apps/control-plane/src/modules/auth/auth.service.ts:103-107 | a recording that dies between INCR and PEXPIRE leaves a count that outlives every clock until such a command |
| Overlap.OverlapEscapes | apps/control-plane/src/modules/auth/auth.service.ts:84-125 | for every n, n logins that pass the check together are all counted at one instant, none of them under the lock |
| Sessions.RefreshMarks.ConsumeRefreshJti | apps/control-plane/src/modules/auth/auth.service.ts:375-396 | outcome and store of the set-if-absent mark, or `skip` when Redis is down |
| Sessions.LifetimeExactly | apps/control-plane/src/modules/auth/auth.service.ts:441-447 | the lifetime of a mark ends at the expiry unless that is less than a second away, and is a week without one |
| Sessions.MarkReachesExpiry | apps/control-plane/src/modules/auth/auth.service.ts:347-348 | a mark whose lifetime was computed at an earlier clock reading still reaches the token's expiry |
| Sessions.IssuedEpochsBounded | apps/control-plane/src/modules/auth/auth.service.ts:412-437 | in every interleaving an issued or about-to-be-signed token carries at most its user's epoch |
| Sessions.EpochsOnlyGrow | apps/control-plane/src/modules/auth/auth.service.ts:304-311 | a user's epoch never falls along a run |
| Sessions.StaleTokensStayDead | apps/control-plane/src/modules/auth/jwt.strategy.ts:50-67 | once the epoch has passed a token, neither refresh nor access validation ever accepts it, Redis up or down |
| Sessions.ReadLeadsTo | apps/control-plane/src/modules/auth/auth.service.ts:332-342 | a handler goes past the read of its user iff the token carries the epoch of a user still there, and then holds that token |
| Sessions.ConsumeLeadsTo | apps/control-plane/src/modules/auth/auth.service.ts:346-359 | in every run a consume that is unanswered or the first of its jti goes on to sign for that user and epoch; an answered one under a live mark leaves its handler only the bump; nothing else can happen |
| Sessions.LogIsExact | apps/control-plane/src/modules/auth/auth.service.ts:347-359 | over every run the log of redemptions is, in order, exactly the answered consumes after which the handler signs |
| Sessions.SignedAtMostOnce | apps/control-plane/src/modules/auth/auth.service.ts:347-359 | hence, of two answered consumes of one jti after which the handler signs, the second comes no earlier than max(exp, first + 1 s) |
| Sessions.ReplayKillsSessions | apps/control-plane/src/modules/auth/auth.service.ts:349-352 | when a consume under a live mark has reached its bump, no token of that user issued until then is ever accepted again |
| Sessions.SessionLivesUntilBump | apps/control-plane/src/modules/auth/auth.service.ts:412-437 | the access token of a new session is accepted at any later step iff its user is still there and none of the bumps for that user has happened since the start |
| Sessions.BumpKillsSessions | apps/control-plane/src/modules/auth/auth.service.ts:291-359 | logout, 2FA disable and detected reuse end every session, including tokens signed later from a stale read |
| Sessions.RedeemedAtMostOnce | apps/control-plane/src/modules/auth/auth.service.ts:330-396 | over all interleavings a second redemption of a jti comes no earlier than max(exp, first + 1 s), so before the expiry there is at most one |
| Sessions.HandlersRedeemTwice | apps/control-plane/src/modules/auth/auth.service.ts:330-447 | runs from the start in which a jti is redeemed at any time and again as soon as its mark has run out, attaining that bound |
| Rotation.TokenState.Authenticate | services/agent/internal/api/server.go:209-222 | the first of the two secrets on one snapshot that matches the request |
| Rotation.TokenState.Observe | services/agent/internal/api/server.go:42-52 | promotion on first use of the staged secret, and what the state file then holds |
| Rotation.TokenState.SetNext | services/agent/internal/api/server.go:56-66 | staging a secret, and what the state file then holds |
| Rotation.TokenState.HandleRotate | services/agent/internal/api/server.go:232-241 | a blank secret is refused and changes nothing, any other is staged, and what the state file then holds |
| Rotation.Store.SaveState | services/agent/internal/enroll/enroll.go:146-152 | a save replaces the file, leaves it, or tears it |
| Rotation.Store.LoadState | services/agent/internal/enroll/enroll.go:133-143 | no state from an unreadable file or one without a secret |
| Rotation.StartAgent | services/agent/cmd/agent/main.go:28-59 | start-up accepts exactly the secrets the file holds, or has to enroll |
| Rotation.StepKeepsMemoryInv | services/agent/internal/api/server.go:195-241 | however saves end, each step of agent, panel and network keeps both sides accepting each other |
| Rotation.StepKeepsInv | services/agent/internal/api/server.go:195-241 | with a save that succeeds it also keeps the state file equal to memory |
| Rotation.RotationIsSafe | services/agent/cmd/agent/main.go:48-59 | in every state reachable with saves that succeed the panel's secret is accepted, the agent's is the panel's present or previous one, disk equals memory and a restart is invisible |
| Rotation.PlainRequestConverges | services/agent/internal/api/server.go:40-52 | one request after the panel switched closes the rotation window |
| Rotation.LateDeliveryStrands | services/agent/internal/api/server.go:54-66 | taking in an abandoned rotate request locks the panel out iff it brings a secret the agent does not hold, was signed with the agent's current one, and the panel has switched to the staged one |
| Rotation.LateDeliveryIsReachable | services/agent/internal/api/server.go:195-241 | a run from enrollment, with every save succeeding, that ends in that lockout |
| Rotation.SavesDecideRestart | services/agent/internal/enroll/enroll.go:132-152 | over every run, the first restart strands the panel iff, since the last save that succeeded, a save tore the file or the panel switched to a secret the file does not hold |
| Rotation.FailedSaves | services/agent/cmd/agent/main.go:52-59 | on the first rotation from enrollment: an unsaved staging strands after the switch, a torn promotion strands, a promotion not written strands only after an unsaved staging |
| FlattenYaml.Flatten | services/agent/internal/builder/inspector.go:407-457 | the line loop with its stack computes the fold of the classified lines |
| FlattenYaml.PopIsFilter | services/agent/internal/builder/inspector.go:437-439 | popping keeps exactly the enclosing lines indented less than the new line |
| FlattenYaml.StackIsEnclosingChain | services/agent/internal/builder/inspector.go:413-443 | at every line of every text the stack is the declarative chain of enclosing headers, with strictly increasing indents |
| FlattenYaml.FlattenMeansEnclosingChains | services/agent/internal/builder/inspector.go:407-457 | a path is in the result iff some leaf line has that chain plus key, with the last such line's value |
| YamlPrinter.PrintedAreClassified | services/agent/internal/builder/inspector.go:414-448 | each printed line is read back as the header or leaf it was printed from |
| YamlPrinter.WrittenLeaf | services/agent/internal/builder/inspector.go:414-448 | a leaf line keeps its key, indent and value whatever blanks, quotes, trailing comment and line end it is written with |
| YamlPrinter.WrittenHeader | services/agent/internal/builder/inspector.go:435-443 | so does a header line, with a comment after its colon or none |
| YamlPrinter.NoiseLines | services/agent/internal/builder/inspector.go:414-434 | comments, list items, lines without a colon or without a key are ignored and `---` separates, whatever surrounds them |
| YamlPrinter.BlankLine | services/agent/internal/builder/inspector.go:415-419 | so are lines of white space |
| YamlPrinter.FlattenUndoesPrint | services/agent/internal/builder/inspector.go:407-457 | flattening a printed tree gives exactly its dotted paths and values, for every positive indent step |
| Inspect.SchemaOfUrl | services/agent/internal/builder/inspector.go:536-553 | a URL names the identifier after its last slash, whatever path precedes it and whatever query or anchor follows |
| Inspect.EnginesExactly | services/agent/internal/builder/inspector.go:364-373 | a value names PostgreSQL iff it can be cut, in some case, around `postgres`, and MySQL iff around `mysql` or `mariadb` |
| Inspect.UrlProperty | services/agent/internal/builder/inspector.go:290-302 | a database URL property, written as prefix, schema and query without a `$`, calls for exactly its environment key and that schema for each engine it mentions |
| Inspect.NameProperty | services/agent/internal/builder/inspector.go:304-307 | a name property calls for its value, if without a `$`, as a schema iff that is an identifier |
| Inspect.PlaceholderEmitsNothing | services/agent/internal/builder/inspector.go:286-289 | a placeholder anywhere in the value makes the property call for nothing |
| Inspect.UrlMatch | services/agent/internal/builder/inspector.go:459-467 | a URL in the text of a file calls for its schema under the engine of its scheme in any case, and under no other scheme |
| Inspect.Inspection.ScanConfigProp | services/agent/internal/builder/inspector.go:281-308 | the collection after one property is that of the emits its path and value call for |
| Inspect.Inspection.ScanFile | services/agent/internal/builder/inspector.go:256-275 | the collection after one file is that of its URLs and then its properties in some order of the map |
| Inspect.Inspection.ScanConfigs | services/agent/internal/builder/inspector.go:229-277 | the collection after all files, for some order of each file's map |
| Inspect.Inspection.Databases | services/agent/internal/builder/inspector.go:198-212 | each found engine with its sorted schemas, loose ones going to a sole engine |
| Inspect.FilesEmitExactly | services/agent/internal/builder/inspector.go:256-275 | something is called for by a scan iff some URL or property of some file calls for it, whatever the map orders |
| Inspect.DatabasesExactly | services/agent/internal/builder/inspector.go:198-212 | an engine is reported iff it was found, with exactly the schemas found with it and, when it is the only engine, the loose ones, in increasing order |
| Inspect.DatabasesIgnoreOrder | services/agent/internal/builder/inspector.go:177-212 | any two choices of map orders give the same databases and the same set of key names |
| EnvKeys.EnvKeyListDependsOnOrder | services/agent/internal/builder/inspector.go:177-196 | over all files, two choices of map orders give different lists of environment keys iff two properties of one file give different keys under names no earlier source gave |
| EnvKeys.EnvKeySetDependsOnOrder | services/agent/internal/builder/inspector.go:189-195 | they give different sets iff two such properties give one name different contents |
| EnvKeys.HyphenClashesWithDot | services/agent/internal/builder/inspector.go:357-360 | any two host paths that differ by a dot and a hyphen make the set vary |
| EnvKeys.TwoNamesReorder | services/agent/internal/builder/inspector.go:272-274 | any two host paths with different names make the list vary |
| Activation.EntitlementsService.Resolve | apps/control-plane/src/common/licensing/entitlements.service.ts:270-300 | the entitlements answered and cached once the key is read, dated by the start of the call |
| Activation.EntitlementsService.IsActivationOk | apps/control-plane/src/common/licensing/entitlements.service.ts:239-253 | true iff not definitively denied and within maxAge of the last success, or of the baseline |
| Activation.EntitlementsService.ResetActivation | apps/control-plane/src/common/licensing/entitlements.service.ts:322-326 | a new key forgets success, denial and cache and re-anchors the baseline |
| Activation.LicensedMeansTimely | apps/control-plane/src/common/licensing/license.ts:82-108 | a licensed result means a timely activation and a key not expired by more than rounding |
| Activation.TiersAreNested | packages/shared/src/licensing.ts:48-71 | each tier has the modules of the one below and limits no lower; Free has one node, no tunnel and no module, Pro no limits |
| Activation.PaidOnlyWhileActivated | apps/control-plane/src/common/licensing/entitlements.service.ts:131-301 | over any run a paid answer is earlier than last success or reset + maxAge + cache lifetime, before key expiry + cache lifetime + 1 s, and never during a definitive denial |
| Activation.GrantsOnlyWhileActivated | apps/control-plane/src/common/licensing/entitlements.service.ts:278-300 | over any run an answer that grants more than Free does so licensed, undenied and within the window, or is a Free-tier key with the Free limits |
| Activation.FreshGrantsExactly | apps/control-plane/src/common/licensing/entitlements.service.ts:278-295 | a resolved answer grants more than Free iff its key is unexpired and is either paid and activated or a Free one that lists modules |
| Activation.EntitlementsService.Heartbeat | apps/control-plane/src/common/licensing/entitlements.service.ts:192-237 | the fields after an uninterrupted heartbeat, without a key, accepted or failed |
| Activation.EntitlementsService.Get | apps/control-plane/src/common/licensing/entitlements.service.ts:265-301 | a fresh enough cached answer, or a resolved one, and the cache after it |
| Restarts.RestartChangesVerdict | apps/control-plane/src/common/licensing/entitlements.service.ts:131-154 | over every run, with updates pending, lost or landed in any order, a restart at t changes the verdict iff it forgets a denial within the window of the date that landed last, or with no denial the windows of that date and of the date recorded last disagree at t |
| Restarts.RestartForgetsOnlyDenials | apps/control-plane/src/common/licensing/entitlements.service.ts:131-154 | from any moment on only denials are forgotten iff there is one, the two dates agree, or both windows have passed |
| Restarts.LandingSyncs | apps/control-plane/src/common/licensing/entitlements.service.ts:157-189 | an update that lands leaves the row in step iff it carries the date memory goes by |
| Restarts.EndsInStepIsOrderly | apps/control-plane/src/common/licensing/entitlements.service.ts:157-189 | every landing order of the pending updates ends in step iff each of them alone would |
| Restarts.InStepExactly | apps/control-plane/src/common/licensing/entitlements.service.ts:157-189 | over every run that holds at each moment iff nothing was recorded while a different update was pending, and no update that would still change the row was lost or overtaken by a restart |
| Restarts.InTurnDatesAgree | apps/control-plane/src/common/licensing/entitlements.service.ts:157-189 | after such a run with nothing pending the row holds exactly the timestamps in memory and the two dates agree |
| Restarts.OverlappingWritesDesync | apps/control-plane/src/common/licensing/entitlements.service.ts:222-226 | from the first start any two records whose updates land in the wrong order, and any success whose update a restart overtakes, make the restart lock early, from the older window's end to the newer one's |
| Restarts.DeniedExactly | apps/control-plane/src/common/licensing/entitlements.service.ts:191-237 | over every run an installation is denied iff the last of the heartbeat answers, key resets and restarts was a failure by revocation, rejection, expiry, seat limit, 401 or 403 |
| Restarts.PaidAnswerExactly | apps/control-plane/src/common/licensing/entitlements.service.ts:264-301 | over every run a resolved answer to a paid key is licensed iff, by the actions alone, the key is unexpired, that last event is no such failure and the window of the last success or reset is open; and what each answer then contains |
| Restarts.CacheDrops | apps/control-plane/src/common/licensing/entitlements.service.ts:191-237 | the cache is dropped by a failed heartbeat or one without a key, a key reset, a restart, and an accepted heartbeat whose update is over, and by no other step |
| Restarts.AnswerRepeats | apps/control-plane/src/common/licensing/entitlements.service.ts:264-301 | until then a resolved answer is repeated to exactly the unforced calls within the cache lifetime |
| Address.ParseIpv4Loop | apps/control-plane/src/common/net/ssrf-guard.ts:24-35 | the loop accepts exactly four decimal octets of at most three digits |
| AddressText.ParseExactly | apps/control-plane/src/common/net/ssrf-guard.ts:24-35 | it accepts exactly the texts printed from four bytes with one to three digits each, and gives those bytes |
| Address.ExpandIpv6Loop | apps/control-plane/src/common/net/ssrf-guard.ts:60-106 | the loops and checks compute the expansion function |
| Address.ExpandUndoesRender | apps/control-plane/src/common/net/ssrf-guard.ts:60-106 | every text form of section 2.2 of RFC 4291 expands to the address it denotes |
| Address.ZoneIsIgnored | apps/control-plane/src/common/net/ssrf-guard.ts:62-63 | a scope id does not change the address |
| Numerals.HexValueUndoesPrint | apps/control-plane/src/common/net/ssrf-guard.ts:83 | a hexadecimal group is worth the number it prints, in any width and mix of cases |
| AddressText.GroupExactly | apps/control-plane/src/common/net/ssrf-guard.ts:68-87 | a group without a dot is accepted iff it prints a 16-bit number in one to four digits, and is worth that number |
| Address.MasksAreRanges | apps/control-plane/src/common/net/ssrf-guard.ts:117-118 | the two mask tests on a byte are interval tests |
| Address.Ipv4GuardIsRanges | apps/control-plane/src/common/net/ssrf-guard.ts:42-51 | the byte tests refuse exactly the six IPv4 blocks as 32-bit intervals |
| Address.Ipv6GuardIsRanges | apps/control-plane/src/common/net/ssrf-guard.ts:108-120 | the byte and mask tests refuse exactly ::, ::1, fc00::/7, fe80::/10 and the mapped images of the IPv4 blocks, as 128-bit intervals |
| Address.ParseUndoesQuad | apps/control-plane/src/common/net/ssrf-guard.ts:151-155 | the reprinted dotted quad parses back to the same bytes |
| Address.PoliciesDifferByPrivateRanges | apps/control-plane/src/common/net/ssrf-guard.ts:122-160 | what `lan-ok` blocks `public` blocks, and the difference is exactly the private and unique-local ranges |
| AddressText.Ipv4TextVerdict | apps/control-plane/src/common/net/ssrf-guard.ts:42-57 | every text of an IPv4 address is refused, by each policy, by which number it is |
| AddressText.Ipv6TextVerdict | apps/control-plane/src/common/net/ssrf-guard.ts:108-160 | every text of eight 16-bit words, in any case, width, compression, embedded quad and scope id, is refused, by each policy, by the 128-bit number they make |
| Masonry.Recompute | apps/web/src/components/ui.tsx:294-304 | every card goes to the first shortest column of its moment, and the heights are the column sums |
| Masonry.HeightsSum | apps/web/src/components/ui.tsx:301 | the columns add up to all cards |
| Masonry.Balanced | apps/web/src/components/ui.tsx:297-302 | no two columns differ by more than the largest card |
| Masonry.GrahamBound | apps/web/src/components/ui.tsx:294-304 | m times any column is at most the sum of the cards plus m-1 times the largest |
| Masonry.GrahamRatio | apps/web/src/components/ui.tsx:294-304 | against any other assignment every column is within a factor 2 - 1/m of its tallest |
| Masonry.EqualCardsDealOut | apps/web/src/components/ui.tsx:294-304 | cards of one height are dealt out column by column, from the first |
| Tunnel.Server.Install | services/agent/internal/tunnel/server.go:125-130 | a new client replaces and closes the previous session |
| Tunnel.Server.Cleanup | services/agent/internal/tunnel/server.go:134-138 | only the handler's own session is cleared |
| Tunnel.Server.Relay | services/agent/internal/tunnel/server.go:166-180 | a public connection gets a stream of the shared session if that is open, and is dropped otherwise |
| Tunnel.OneLiveSession | services/agent/internal/tunnel/server.go:125-138 | in every interleaving an open installed session is the newest, the shared session is the newest or none, relays reach the newest while it is open, and it is none once all handlers finished |
| Tunnel.LateRelayReachesNewest | services/agent/internal/tunnel/server.go:166-180 | a relay that opens its stream any number of steps after reading the session gets one only on the session that is then the newest |
| Tunnel.StaleCleanupIsHarmless | services/agent/internal/tunnel/server.go:134-138 | a replaced handler's cleanup changes nothing |
| Alerts.Alerting.Dispatch | apps/control-plane/src/modules/alerts/alerts.service.ts:313-355 | one row per key, marked failed with the joined and cut errors of the wired and enabled channels, in rule order |
| Alerts.RowStatus | apps/control-plane/src/modules/alerts/alerts.service.ts:319-354 | a new row ends as sent iff no enabled rule of its event has an enabled channel that fails |
| Alerts.OneFailure | apps/control-plane/src/modules/alerts/alerts.service.ts:339-352 | one failing rule leaves the name of its channel and its error, cut to 1000 characters |
| Alerts.ErrorsInOrder | apps/control-plane/src/modules/alerts/alerts.service.ts:331-346 | the errors of a list of rules are those of its parts in order |
| Alerts.Alerting.NodeOffline | apps/control-plane/src/modules/alerts/alerts.evaluator.ts:147-168 | the ledger after a pass over the nodes offline since before the cutoff |
| Alerts.Alerting.NodeOnline | apps/control-plane/src/modules/alerts/alerts.evaluator.ts:171-188 | the ledger after a pass over the nodes that are back |
| Alerts.Alerting.NodeResources | apps/control-plane/src/modules/alerts/alerts.evaluator.ts:190-230 | the ledger after a pass over the newest sample of each node |
| Alerts.FirstPerNode | apps/control-plane/src/modules/alerts/alerts.evaluator.ts:206-208 | for exactly the nodes that have a sample, one, and it is the first, which is the newest, of its node |
| Alerts.FirstByIdIsFirst | apps/control-plane/src/modules/alerts/alerts.evaluator.ts:447-453 | the incident map holds exactly the ids some key names, each with its newest key |
| Alerts.LatestIsAnIncident | apps/control-plane/src/modules/alerts/alerts.evaluator.ts:440-454 | the key found for a node names that node and is an incident in the ledger |
| Alerts.LatestIsNewestRow | apps/control-plane/src/modules/alerts/alerts.evaluator.ts:440-454 | the newest incident of a node is the one found iff fewer than 500 incident rows follow it |
| Alerts.OfflineFires | apps/control-plane/src/modules/alerts/alerts.evaluator.ts:147-168 | after a pass every node that was due has its incident claimed |
| Alerts.OfflineFiresExactly | apps/control-plane/src/modules/alerts/alerts.evaluator.ts:147-168 | a key is claimed after a pass iff it was before or is the incident of a node that was due |
| Alerts.RecoveryFires | apps/control-plane/src/modules/alerts/alerts.evaluator.ts:171-188 | after a pass every node that is back has its newest incident, of the newest 500 rows, answered |
| Alerts.RecoveryFiresExactly | apps/control-plane/src/modules/alerts/alerts.evaluator.ts:171-188 | an incident of such a node is answered after a pass iff it was before or is that one |
| Alerts.ResourceFires | apps/control-plane/src/modules/alerts/alerts.evaluator.ts:215-229 | after a pass every reading over its threshold has its alert claimed for the window |
| Alerts.ResourceFiresExactly | apps/control-plane/src/modules/alerts/alerts.evaluator.ts:190-230 | a key is claimed after a pass iff it was before or is that of a reading, of a newest sample of an active node, at or over its threshold |
| Alerts.ReachableIsSound | apps/control-plane/src/modules/alerts/alerts.service.ts:313-331 | over all runs of any number of evaluators keys are claimed at most once and every row has the shape of its event |
| Alerts.OfflinePassRuns | apps/control-plane/src/modules/alerts/alerts.evaluator.ts:147-168 | the ledger after the offline check is reached by claims and reports of the ledger machine |
| Alerts.RecoveryPassRuns | apps/control-plane/src/modules/alerts/alerts.evaluator.ts:171-188 | so is the ledger after the online check |
| Alerts.ResourcePassRuns | apps/control-plane/src/modules/alerts/alerts.evaluator.ts:190-230 | so is the ledger after the resource check |
| Alerts.ChecksStayReachable | apps/control-plane/src/modules/alerts/alerts.evaluator.ts:147-230 | hence every check leads from reachable ledgers to reachable ones |
| Alerts.RecoveriesPairWithIncidents | apps/control-plane/src/modules/alerts/alerts.evaluator.ts:171-188 | in every reachable ledger a recovery follows an incident of the same node and stamp, and no incident is answered twice |
| Alerts.RecoveriesAreNoMoreThanIncidents | apps/control-plane/src/modules/alerts/alerts.evaluator.ts:436-454 | in every reachable ledger recoveries never outnumber incidents |
| Alerts.ResourceAlertsAreRateLimited | apps/control-plane/src/modules/alerts/alerts.evaluator.ts:210-228 | in every reachable ledger a node's resource event has at most floor(t1/R) - floor(t0/R) + 1 rows of [t0, t1] |
| Invites.InviteTable.Claim | apps/control-plane/src/modules/invites/invites.service.ts:83-98 | the row is claimed iff present, unused and unexpired |
| Invites.ConsumedAtMostOnce | apps/control-plane/src/modules/invites/invites.service.ts:83-108 | in every interleaving with crashes at most one call holds the claim, has a rollback pending or has returned, and a returned one was in time and with a matching e-mail |
| Invites.ReturnedToItsRecipient | apps/control-plane/src/modules/invites/invites.service.ts:99-108 | in every run the row a call returned has no e-mail, an empty one, or the lower-cased one the call registers |
| Invites.ComparesExactly | apps/control-plane/src/modules/invites/invites.service.ts:99-108 | a comparison returns the row exactly then and otherwise leads to the rollback |
| Invites.RecipientConsumes | apps/control-plane/src/modules/invites/invites.service.ts:83-108 | a claim of a present, unused, unexpired row that is unbound or bound to the caller, compared next, returns it |
| Invites.OthersAreRefused | apps/control-plane/src/modules/invites/invites.service.ts:83-98 | a claim of a row that is gone, used or expired is refused and changes nothing |
| Invites.SuccessIsFinal | apps/control-plane/src/modules/invites/invites.service.ts:83-108 | after a success the call stays the one that returned and the row, unless revoked, stays used |
| Invites.UsedMeansHeldOrCrashed | apps/control-plane/src/modules/invites/invites.service.ts:83-108 | over every run from an unused row, a row still there is used iff some call has it or some call has died holding it |
| Invites.MismatchLeavesInvite | apps/control-plane/src/modules/invites/invites.service.ts:76-106 | in every interleaving the end of a rollback leaves the row, unless revoked, as the run found it |
| Invites.CrashSpendsInvite | apps/control-plane/src/modules/invites/invites.service.ts:100-106 | from a crash on nobody has the invite and, unless revoked, it is never claimable again |
| Certs.SanitizedNames | services/agent/internal/certs/certs.go:39-48 | sanitizing leaves alone exactly the clean lower-case names |
| Certs.SanitizeTwice | services/agent/internal/certs/certs.go:39-48 | sanitizing is idempotent |
| Certs.RunsAreReplaced | services/agent/internal/certs/certs.go:41 | safe text stays and each run of unsafe characters becomes one underscore |
| Certs.WildcardSharesFiles | services/agent/internal/certs/certs.go:39-58 | `*.host` and `host` name the same files |
| Certs.HostNamesDoNotShare | services/agent/internal/certs/certs.go:39-58 | two clean names share files only when they are equal |
| Certs.SharesFilesExactly | services/agent/internal/certs/certs.go:39-58 | a host shares its files with another clean name iff its own is not clean |
| Certs.Manager.Put | services/agent/internal/certs/certs.go:71-94 | the errors in order, and the directory and list after each way out |
| Certs.AcceptsExactly | services/agent/internal/certs/certs.go:71-80 | a pair looks valid iff the host is not blank and the texts can be cut around the PEM words |
| Certs.RefusalsExactly | services/agent/internal/certs/certs.go:71-94 | which error a call ends in, by those cuts alone, and that a refused call changes nothing |
| Certs.Manager.Delete | services/agent/internal/certs/certs.go:97-101 | both files go and the list is regenerated |
| Certs.Manager.ListHosts | services/agent/internal/certs/certs.go:104-134 | sorted, without duplicates, exactly the names with both files |
| Certs.Generate | services/agent/internal/certs/certs.go:144-155 | the text written for a list of hosts |
| Certs.GeneratedListsHosts | services/agent/internal/certs/certs.go:144-155 | reading the generated text back gives exactly the hosts' two paths, in order |
| Certs.ListMatchesFiles | services/agent/internal/certs/certs.go:71-162 | after any run of commands from nothing the list names, sorted and once each, exactly the hosts of a reference map, by files that hold their pairs |
| Certs.ListedFilesExactly | services/agent/internal/certs/certs.go:103-155 | for any directory, the list has the path of every pair iff all pairs bear clean names, and lists only files that exist iff the clean name of every pair is a file's |
| Certs.ForeignFilesMislisted | services/agent/internal/certs/certs.go:103-155 | a pair under a capital is listed under a name that is not there |
| Sorting.IncreasingIsUnique | services/agent/internal/certs/certs.go:132 | a sorted list is determined by its members, whatever order a map was iterated in |
| Paths.CleanTwice | services/agent/internal/compose/path.go:27 | lexical cleaning is idempotent and keeps the segments |
| Paths.DotDotMeansClimbs | services/agent/internal/compose/path.go:27-38 | a cleaned relative path holds `..` iff some prefix climbs above its start |
| Paths.RefusedMeansClimbs | services/agent/internal/compose/path.go:12-40 | exactly the absolute-looking and the climbing files are refused, each with its error |
| Paths.AcceptedIsInside | services/agent/internal/compose/path.go:12-40 | an accepted file is a clean relative path without `..` |
| Paths.AcceptedIsTheFile | services/agent/internal/compose/path.go:12-40 | white space around a text changes nothing, and the path of an accepted file has the segments of that text |
| Paths.BlankIsDefault | services/agent/internal/compose/path.go:13-16 | white space alone stands for `docker-compose.yml` |
| Paths.ResolveExactly | services/agent/internal/compose/path.go:44-56 | resolution succeeds iff the file is accepted and the base is neither `/` nor `.`, and then extends the base's segments by the file's |
| Paths.ResolvesToTheFile | services/agent/internal/compose/path.go:44-56 | a resolved path has the segments of the work directory followed by those of the given text |
| Paths.SafeSubdirExactly | services/agent/internal/builder/builder.go:20-41 | every validated name resolves to the base plus that segment, unless the base is `/` or `.` |
| Paths.ValidIdExactly | services/agent/internal/builder/builder.go:20-28 | an id is valid iff it is a non-empty word of letters, digits, `_` and `-` |
| Csv.ReadUndoesToCsv | apps/control-plane/src/modules/audit/audit.controller.ts:88-118 | a reader of section 2 of RFC 4180 recovers the header and every cell of every export |
| Csv.ReadsEachField | apps/control-plane/src/modules/audit/audit.controller.ts:100-118 | what a reader finds in each cell: nothing for a missing, null or undefined field and otherwise its text |
| Csv.ToCsvIsInjective | apps/control-plane/src/modules/audit/audit.controller.ts:100-118 | equal exports have equal cells |

## Left out

- Lockout.FailuresBounded: logins on one account do not overlap and the process does not die inside
  one; `Overlap.OverlappingFailuresBounded` is the bound without those assumptions.
- Lockout.AuthService.RecordLoginFailure: runs its Redis commands without interruption; in `Overlap`
  each is a step of its own.
- Overlap.OverlappingFailuresBounded: all commands read one clock that does not go back, and Redis
  answers each of them.
- Lockout.AuthService.Login: Redis answers every command; when it is down the check lets the
  attempt through and nothing is recorded.
- Sessions.RedeemedAtMostOnce: covers the redemptions Redis answered, of tokens with an `exp` and a
  `jti`; when Redis is down a redemption is let through uncounted.
- Sessions.BumpKillsSessions: the epoch a bump writes is the old one plus one; the users service
  itself is not part of this model.
- Rotation.RotationIsSafe: the panel is an environment that switches only on an acknowledgement, has
  one rotation outstanding, generates fresh secrets and never delivers an abandoned request; saves
  succeed. `Rotation.LateDeliveryStrands` and `Rotation.SavesDecideRestart` decide what happens
  otherwise.
- Rotation.SavesDecideRestart: speaks of the first restart; enrolling again, and what follows a
  restart that lost a secret, are not part of this model.
- Rotation.TokenState.Authenticate: signed request tokens and the raw secret are one test, whether
  the request was made with that secret; time and audience checks are left out.
- YamlPrinter.FlattenUndoesPrint: keys without a colon and values that are non-empty, trimmed,
  unquoted, not starting with `#` and without ` #`, as the loop's own conditions dictate; quotes and
  comments are the subject of `YamlPrinter.WrittenLeaf`.
- EnvKeys.EnvKeyListDependsOnOrder: starts, like `Inspect.DatabasesIgnoreOrder`, from any collection
  whose environment keys are marked seen.
- Inspect.DatabasesIgnoreOrder: starts from whatever the `.env` and compose files gave; the two
  regular-expression matches and the `.properties` parser are inputs.
- Inspect.Inspection.ScanConfigProp: upper-casing of characters without an ASCII capital is left out.
- Activation.PaidOnlyWhileActivated: online mode, a first start that anchored its baseline, and clock
  readings that do not go back; a start that cannot read its row is not part of this model.
- Activation.EntitlementsService.Heartbeat: runs without interruption; the wait for the row update
  before the cache is dropped is a step of its own in the licensing machine.
- Activation.EntitlementsService.Get: runs without interruption, like the heartbeat.
- Address.PoliciesDifferByPrivateRanges: `isIP` is a parameter; name resolution and the rest of the
  host policy are left out.
- Masonry.Recompute: integer card heights; measuring and rendering are left out.
- Alerts.ReachableIsSound: rows are never deleted, and a node id is a lower-case UUID.
- Alerts.Alerting.Dispatch: nothing comes between its claim and its report, which are separate steps
  of the ledger machine; the error text is cut by characters, and titles and bodies are left out.
- Certs.Manager.Put: creating directories, writing and renaming files succeed, apart from a path
  that is a directory; hosts are sequences of Unicode scalar values.
- Csv.ReadUndoesToCsv: the text of a date, object or number is an input.
- Other checks of the alert evaluator, retention, channels' wire formats: variations of the three
  node checks or one-branch facts.
- Docker, git, proxies, the database driver, HTTP handlers, and the web interface beyond one loop:
  plumbing around the modelled decisions.
- bcrypt, TOTP, JWT signatures, Ed25519 license keys, AES-GCM and TLS: a verified value is an input.

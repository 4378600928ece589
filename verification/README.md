# KubeSolv: a verified model

KubeSolv is a Kubernetes operator with a chat front end: a reconciler watches pods and nodes,
proposes or takes actions, and two chat bots carry approval buttons to people and decode what
they press. This project models the stateful, parsing and arithmetic parts of it and proves what
every run of them keeps.

| file | what it models |
|---|---|
| `Text.dfy` | split, join, trim, decimal printing and `ParseInt`, and their laws |
| `Rates.dfy` | counting instants in an interval: the argument behind every rate limit |
| `Subscribers.dfy` | the text form of the team and its exact round-trip condition |
| `Team.dfy` | invites, failure windows, members and stored text as one state machine; run theorems |
| `Messages.dfy` | what each message must do, read off its text, and when a chat gets blocked |
| `TelegramBot.dfy` | the bot as an object with in-place records, proved to take Team's steps |
| `Actions.dfy` | the action-id language, its producers and its two decoders |
| `Approval.dfy` | first approver wins, under every interleaving of split presses |
| `Scaling.dfy` | `ScaleDeployment` against a versioned store with concurrent writers |
| `Cost.dfy` | the scale-down proposal followed from button to store |
| `AlertCache.dfy` | cooldown keys, the trace of cache operations, rate bounds over runs |
| `Reconciler.dfy`, `Nodes.dfy` | the two reconcilers as objects whose invariant is a legal trace |
| `Footprints.dfy` | which keys a stretch of the trace concerns and which gates it passed |
| `Incidents.dfy`, `Lifecycle.dfy`, `Autoscaler.dfy`, `Oom.dfy`, `Rollback.dfy` | the decisions the pod reconciler takes |
| `Sessions.dfy`, `Relay.dfy` | the chat session cache with its reaper; the cross-platform channel |

How it fits together: where the source updates an object in place there is a class, and each
method's contract equates the new abstract state with a step function of the old one. The run
theorems are lemmas about those step functions, and others state what each step must do without
naming the function that does it. For the reconcilers the class invariant says that
the cache agrees with a ghost trace of operations that is legal; every sequence of calls keeps it,
and the rate bounds are lemmas about every legal trace.

Instants are integers (nanoseconds) and the clock never runs backwards; each reading a handler
takes is a separate input, so time may pass between a check and the store after it. `Range` over a
concurrent map visits the keys in an arbitrary order, given as an input. The outcome of API calls,
the model's answers and freshly drawn invite codes are inputs too.

Assumptions, each taken from the setting of the code: invite codes are fresh; Kubernetes names hold
no `/` and no `|`; a deployment's template has at least one container and distinct container names;
each reconciler runs one worker, and Telegram messages are handled by one goroutine; an API call
that answers with an error has had no effect.

What the proofs showed about the code:

- A username with a `,` or a trailing space does not survive the stored text, and these are the
  only ones (`Subscribers.RoundTrip`, `Subscribers.RoundTripCanFail`). Chat ids always survive.
- If the ConfigMap exists but cannot be read at start-up, the bot starts with an empty team beside
  it (`Team.BootAgrees`), and the first change it saves erases the stored one
  (`Team.UnreadBootWipes`).
- A node alert's button does nothing on either platform: it prints `cordon_node`, and the
  dispatchers know `cordon` (`Actions.NodeAlertInert`).
- "At most once" is a promise of the Telegram path only: from Slack an id runs once for each press
  (`Approval.SlackRepeats`). And it is once for ever: as long as the bot runs, an id that has been
  claimed can never be approved from Telegram again, although the reconciler prints the same id for
  a later incident (`Approval.LaterOffersDead`).
- The rollback behind an approval button restores nothing. It writes an annotation, so it has the
  effect of a restart; only the reconciler's own rollback reads ReplicaSets
  (`Rollback.ButtonRestoresNothing`, `Incidents.OfferedButton`).
- The notice titles that would bypass the cooldown are used nowhere, so recovery and new-pod notices
  are rationed like all others (`AlertCache.NoTitleBypasses`), although the bypass in
  `notifyUser` and its test suggest otherwise.
- The cost proposal is guarded from above only: every recommendation of 0 or fewer replicas is
  offered and written as it stands, unless the API itself refuses it (`Cost.NoLowerGuard`).
- At revision 1 a ReplicaSet whose revision is absent or unreadable is taken for the predecessor
  (`Rollback.UnannotatedPredecessor`).
- The documentation speaks of scaling by log volume and of a 90% confidence gate; the code scales
  by CPU and has no such gate. The model follows the code.

## Model

| member | source | states |
|---|---|---|
| `Text.ParsePrinted` | internal/alert/telegram.go:139-155 | what `%d` prints for any integer of a width, negative and extreme ones included, `ParseInt` of that width reads back without error |
| `Text.ParseIntExact` | internal/alert/telegram.go:139 | for any text: exactly the numerals of the width are read, as the numbers they stand for; a wider numeral gives the nearest bound and an error, other text 0 or a bound and an error |
| `Text.TrimExact` | internal/alert/telegram.go:133 | trimming takes white space off both ends and nothing else |
| `Subscribers.PrintMembers` | internal/alert/telegram.go:153-158 | the saving loop, for any visiting order, computes the joined entries |
| `Subscribers.ParseMembers` | internal/alert/telegram.go:127-143 | the loading loop with its skips (blank piece, no ':', bad number) computes the decoded map |
| `Subscribers.DecodeExact` | internal/alert/telegram.go:127-143 | for any stored text: a chat is loaded exactly if some comma-separated piece lists it -- a numeral of the width, the first ':', a name, spaces around aside -- and under the name of the last such piece |
| `Subscribers.RoundTrip` | internal/alert/telegram.go:127-158 | for every member map and every visiting order, loading what was saved gives the map back if and only if no username holds ',' or ends in a space |
| `Subscribers.RoundTripCanFail` | internal/alert/telegram.go:265-270 | a username with a comma and one with a trailing space that do not survive |
| `Subscribers.DecodeWellFormed` | internal/alert/telegram.go:132-143 | whatever the stored text, every name loaded from it is one the codec can carry |
| `Subscribers.NoMemberLost` | internal/alert/telegram.go:132-158 | with any usernames at all, loading what was saved yields every chat id that was saved |
| `Team.StepEffect` | internal/alert/telegram.go:253-313 | every routed message has one of six effects, with the guards that enable it; only the admin's messages create codes or remove others |
| `Team.DurableRun` | internal/alert/telegram.go:103-188 | after any run of messages whose latest change of the membership was saved, a reload restores exactly the members in memory if and only if all usernames are well formed, and in any case forgets nobody |
| `Team.UnreadBootWipes` | internal/alert/telegram.go:108-177 | in every run after a start-up that could not read the ConfigMap, the stored text is the old one or lists only chats that registered since, and the first saved change of the membership replaces it |
| `Team.BootAgrees` | internal/alert/telegram.go:108-130 | start-up leaves an existing ConfigMap alone, creates a missing one empty if it can, and loads the team exactly if it can read it; memory and store agree afterwards exactly when it was readable, absent or empty |
| `Messages.WrongCodeCounted` | internal/alert/telegram.go:352-373 | an outsider who is not blocked and registers with an empty, unknown or expired code gets exactly one failure recorded, in its open window or a new one, and nothing else changes |
| `Messages.BlockedIgnored` | internal/alert/telegram.go:338-341 | a blocked chat's registration changes nothing, whatever the code |
| `Messages.GoodCodeAdmits` | internal/alert/telegram.go:375-385 | a code in force with uses left puts the chat on the team under its username, uses up one use of that code, and is saved |
| `Messages.InviteCreates` | internal/alert/telegram.go:284-325 | the admin's `/invite` creates a code for a day and ten uses, and nothing else |
| `Messages.LeavingTakesEffect` | internal/alert/telegram.go:290-443 | `/unregister` takes the sender off the team, the admin's `/remove` one member of the name, and either is saved |
| `Messages.NothingElse` | internal/alert/telegram.go:260-311 | every other message, a used-up code included, changes nothing but the sender's own expired window |
| `Messages.FiveStrikes` | internal/alert/telegram.go:196-219 | over any ten minutes that a chat enters with no window open, it ends up blocked exactly if it sent five or more wrong codes, whoever else sends whatever |
| `Team.StepKeepsFailures` | internal/alert/telegram.go:196-219 | every effect keeps the relation between one chat's recorded failures and its current window |
| `Team.FailureBound` | internal/alert/telegram.go:196-219 | over every run: a counter never exceeds 5, a chat's windows start more than 10 minutes apart, and any interval of length T holds at most 5(T/10min+2) recorded failures of one chat |
| `Team.BlockedExactly` | internal/alert/telegram.go:195-208 | a chat is blocked exactly while its five latest recorded failures share a window at most ten minutes old |
| `Team.StepKeepsInvites` | internal/alert/telegram.go:336-385 | every effect keeps use counts, expiry, admin and head-count in order |
| `Team.Conservation` | internal/alert/telegram.go:318-443 | over every run: each code's use count is the number of registrations made with it and at most its maximum, each registration was made by the expiry of the code it used and never by the admin, and members = loaded + all uses − departures |
| `Team.NonAdminPower` | internal/alert/telegram.go:277-312 | a message from anyone but the admin affects nobody else's membership or counter and creates no code |
| `Team.RemovalExact` | internal/alert/telegram.go:419-443 | `/remove` takes out exactly one member bearing the name if there is one, whatever the visiting order |
| `TelegramBot.Bot.constructor` | internal/alert/telegram.go:77-88 | a new bot has no members, codes, failures or claims |
| `TelegramBot.Bot.LoadSubscribers` | internal/alert/telegram.go:103-145 | loading takes the start-up step on the object |
| `TelegramBot.Bot.SaveSubscribers` | internal/alert/telegram.go:148-177 | a successful write stores the printed members, a failed one leaves the store as it was |
| `TelegramBot.Bot.CheckBruteForce` | internal/alert/telegram.go:196-208 | answers and drops the expired window as the step functions say |
| `TelegramBot.Bot.RecordFailedAttempt` | internal/alert/telegram.go:211-219 | opens a window or counts in place, and records the failure |
| `TelegramBot.Bot.HandleGenerateInvite` | internal/alert/telegram.go:318-325 | a new code object with its expiry, maximum and no uses |
| `TelegramBot.Bot.HandleRegister` | internal/alert/telegram.go:336-385 | the object takes the registration step, the use counted in place |
| `TelegramBot.Bot.HandleUnregister` | internal/alert/telegram.go:400-410 | the object takes the departure step |
| `TelegramBot.Bot.HandleRemoveUser` | internal/alert/telegram.go:419-443 | the object takes the removal step |
| `TelegramBot.Bot.HandleMessage` | internal/alert/telegram.go:260-311 | one turn of the main loop is one step of the state machine |
| `TelegramBot.Bot.Serve` | internal/alert/telegram.go:253-313 | the main loop over any legal sequence of messages is the machine's run, so the run theorems hold of the object |
| `TelegramBot.Bot.Broadcast` | internal/alert/telegram.go:615-634 | every authorised chat gets the text exactly once, the admin first, nobody else |
| `TelegramBot.Bot.BroadcastWithAction` | internal/alert/telegram.go:637-655 | the same with the button's id attached to every message |
| `TelegramBot.Bot.HandleInteraction` | internal/alert/telegram.go:669-695 | check, claim and decode on the object; an unauthorised press changes nothing |
| `Actions.NoConfusion` | internal/alert/telegram.go:566-752 | for all field strings, both decoders read a printed id as exactly its action if no field holds a bar, and as nothing otherwise |
| `Actions.DecodersAgree` | internal/alert/slack.go:243-298 | on every string both dispatchers select the same operation and arguments, and only for that operation's own id |
| `Actions.ActionIdInjective` | internal/alert/telegram.go:683 | bar-free actions share an id only if equal, so a claim covers one operation |
| `Actions.BarsCollide` | internal/alert/telegram.go:579-586 | with bars two operations can print one id, which decodes to nothing |
| `Actions.ToolButtonFaithful` | internal/alert/slack.go:156-191 | the button of a chat tool call runs that tool's operation on exactly the arguments given if none holds a bar, and nothing otherwise; two buttons that do the same came from one tool and the same arguments |
| `Actions.NodeAlertInert` | internal/controller/node_controller.go:60 | a node alert's id decodes to nothing on both platforms, for every node name |
| `Approval.StepKeepsClaims` | internal/alert/telegram.go:677-693 | every step keeps: one holder per claimed id, none for an unclaimed one, holders authorised |
| `Approval.CheckDecides` | internal/alert/telegram.go:677-680 | a press that gets checked is authorised exactly if its presser is then the admin or on the team, as the schedule's latest change of it has it, and is refused otherwise |
| `Approval.RunsWhatItSays` | internal/alert/slack.go:243-298 | in every run each mutation, from Slack or Telegram, is the very operation its id was printed from |
| `Approval.AtMostOnce` | internal/alert/telegram.go:669-695 | in every interleaving the Telegram-driven mutations never repeat an id, each is what its id decodes to, and each presser was the admin or a member at the event that checked the press |
| `Approval.LaterOffersDead` | internal/alert/telegram.go:683-689 | once an id has been claimed, no later press of it ever runs from Telegram, whatever happens in between |
| `Approval.ExactlyOneWinner` | internal/alert/telegram.go:677-689 | when all presses are answered an id has exactly one winner if anyone authorised pressed it and none otherwise; the other authorised presses are told so |
| `Approval.SlackRepeats` | internal/alert/slack.go:243-298 | in every interleaving an id that decodes runs from Slack exactly once for each Slack press, and from Telegram once if a press was dispatched and else never; so it runs at most once overall exactly when these come to at most one, and an id that decodes to nothing never runs |
| `Approval.HandleIsSteps` | internal/alert/telegram.go:669-695 | the uninterrupted handler is the split steps in a row |
| `Scaling.ScaleDeployment` | internal/ops/scale.go:12-28 | the retry loop against the shared store computes the step function; it makes at most five attempts |
| `Scaling.OtherWritesExtend` | internal/ops/scale.go:20-25 | after any writes by others, a key with an unchanged version holds an unchanged object |
| `Scaling.NoLostUpdate` | internal/ops/scale.go:12-28 | nil means exactly one committed write, of the parsed count over the immediately preceding version's other fields; an error means none; bad numbers never reach the store |
| `Scaling.SucceedsExactly` | internal/ops/scale.go:12-28 | the answer exactly: bad text is refused; else it is what the first attempt not to meet a conflict meets, or a conflict if all five did; nil means no fault, the deployment found and unchanged between the two calls, and then the stored count is the number and all else as others left it |
| `Scaling.ConflictMeansExhausted` | internal/ops/scale.go:19 | a conflict is reported exactly when every attempt met one |
| `Cost.EndToEnd` | internal/controller/kubesolvconfig_controller.go:601-614 | a proposed count is below the current one, both decoders read its button as that scaling, and approval returning nil wrote exactly that count |
| `Cost.OfferedExactly` | internal/controller/kubesolvconfig_controller.go:604-608 | an offer is made exactly when the model is in favour, there is more than one replica and the recommendation is lower |
| `Cost.NoLowerGuard` | internal/controller/kubesolvconfig_controller.go:604-614 | every recommendation of nought or fewer is offered, decodes and parses as that count; a nil return committed it, and an undisturbed first attempt returns nil |
| `AlertCache.KeysSeparate` | internal/controller/kubesolvconfig_controller.go:68-574 | for slash-free names the key families and the title-length hashes are injective and pairwise disjoint |
| `AlertCache.SlashesCollide` | internal/controller/kubesolvconfig_controller.go:325 | with slashes in names two keys can coincide |
| `AlertCache.StoreAgrees` | internal/controller/kubesolvconfig_controller.go:67-76 | storing under one key leaves every other key's time as the trace has it |
| `AlertCache.GateExact` | internal/controller/kubesolvconfig_controller.go:68-574 | a key's gate is open exactly if nothing has been stored under it since its last deletion, or its family's cooldown has gone by since the latest store, or its notice title bypasses |
| `AlertCache.PassesSpaced` | internal/controller/kubesolvconfig_controller.go:128-170 | in every legal trace the passes of one gate are at least its cooldown apart |
| `AlertCache.SpacedBetweenDeletions` | internal/controller/kubesolvconfig_controller.go:67-119 | in every legal trace two passes of one gate, issue notices included, are a cooldown apart unless a deletion of its key lies between them |
| `AlertCache.RateBound` | internal/controller/node_controller.go:49-56 | any interval of length T sees at most T/TTL+1 passes of one gate |
| `AlertCache.OomRationed` | internal/controller/kubesolvconfig_controller.go:324-400 | in every legal trace the gate of a pod's kill is passed at most once, and passes of a deployment's pending gate are ten minutes apart |
| `AlertCache.NoTitleBypasses` | internal/controller/kubesolvconfig_controller.go:71 | no title the reconciler uses takes the bypass |
| `AlertCache.NoticeRate` | internal/controller/kubesolvconfig_controller.go:67-84 | at most T/5min+1 notices of one hash in an interval of length T, issue notices while their hash is not deleted |
| `Reconciler.KubeSolvConfigReconciler.NotifyUser` | internal/controller/kubesolvconfig_controller.go:67-76 | a notice goes out exactly when its gate is open, and is recorded |
| `Reconciler.KubeSolvConfigReconciler.TrackLifecycle` | internal/controller/kubesolvconfig_controller.go:87-125 | one observation: the state cache, the notices tried and the deleted hash |
| `Reconciler.KubeSolvConfigReconciler.CheckSecurity` | internal/controller/kubesolvconfig_controller.go:127-158 | the hourly gate is passed, and a policy announced, exactly when none was found |
| `Reconciler.KubeSolvConfigReconciler.Reconcile` | internal/controller/kubesolvconfig_controller.go:45-65 | a request for an ignored namespace or a missing pod does nothing; any other tracks the pod once, uses only the keys of that pod, its namespace, its deployment and notices, and skips no check: each gate is passed only for cause, and surely if there is cause and it is open when the request comes in |
| `Reconciler.KubeSolvConfigReconciler.CheckActivity` | internal/controller/kubesolvconfig_controller.go:160-241 | behind the 15-second gate, the patch asked for is the autoscaler's decision |
| `Reconciler.MetExact` | internal/controller/kubesolvconfig_controller.go:193-213 | the bounds are 1 and 10 unless an annotation is a 32-bit numeral, and then that number |
| `Reconciler.KubeSolvConfigReconciler.WatchActivity` | internal/controller/kubesolvconfig_controller.go:160-241 | any sequence of activity checks of P pods of one deployment that nobody else edits moves its count by at most P(T/15s+1) in the time T it takes |
| `Reconciler.KubeSolvConfigReconciler.AnalyzePod` | internal/controller/kubesolvconfig_controller.go:244-322 | the loop over container statuses leaves exactly the trace and the outcome of the turns it took, up to the one that ends it; a rollback the model asks for is attempted and answers as `rollbackDeployment` does |
| `Incidents.TurnExact` | internal/controller/kubesolvconfig_controller.go:246-320 | what one container status leads to, by its fields: handed over, passed by, stopped at a shut gate, or the gate passed and then a rollback attempted, offered, or the issue noticed, exactly when each |
| `Incidents.FirstTroubleDecides` | internal/controller/kubesolvconfig_controller.go:246-320 | the first killed or broken container decides the call as its turn says, and the call ends there if that turn ends it |
| `Incidents.NoTrouble` | internal/controller/kubesolvconfig_controller.go:246-320 | over containers of which none is killed or broken the call does nothing |
| `Incidents.RollbackGrounds` | internal/controller/kubesolvconfig_controller.go:254-316 | a rollback is attempted or offered only on the model's answer about a broken container, with the gate open and none killed for memory before it; attempted exactly when the model asks for it; an offered button decodes to the rollback operation of the pod's own deployment, or to nothing |
| `Incidents.OfferedButton` | internal/ops/manager.go:177-183 | the offered button, approved on either platform, keeps labels and spec; so it ends with those the reconciler's own rollback would have asked for exactly when the deployment already had them |
| `Rollback.ButtonRestoresNothing` | internal/ops/manager.go:177-183 | for every template the operation adds one annotation and keeps the rest, as a restart does; it equals any given template exactly when that one already has the deployment's labels, spec and other annotations and carries this very mark |
| `Incidents.OneQuestion` | internal/controller/kubesolvconfig_controller.go:254-260 | a call shorter than the gate's two minutes passes the gate at most once, however many containers are broken |
| `Reconciler.KubeSolvConfigReconciler.HandleOOM` | internal/controller/kubesolvconfig_controller.go:324-415 | nothing if the pod's gate was ever passed; else that gate is passed and the rest leaves the trace and decision described next |
| `Reconciler.HandledExact` | internal/controller/kubesolvconfig_controller.go:349-414 | a decision is taken exactly if deployment and containers are found and nothing is pending; exactly a proposal passes the pending gate, at its own instant; the guardrail notice goes out exactly for a blocked decision and the other exactly for a proposal without bots |
| `Reconciler.ProposalsApart` | internal/controller/kubesolvconfig_controller.go:351-400 | any two proposals for one deployment, for whichever pods, are ten minutes apart |
| `Reconciler.KubeSolvConfigReconciler.CheckPrometheusMetrics` | internal/controller/kubesolvconfig_controller.go:477-496 | nothing while the gate is closed; else each exceeded threshold stores the time and tries its notice |
| `Incidents.MetricsExact` | internal/controller/kubesolvconfig_controller.go:478-495 | a metrics pass counts once against its gate if CPU is above 0.90 or memory above 800, and else not; each notice is sent exactly if its own reading is above and its cooldown allows |
| `Reconciler.KubeSolvConfigReconciler.CheckCost` | internal/controller/kubesolvconfig_controller.go:552-623 | an offer is made exactly when the daily gate is open, the deployment old enough and the guards let the proposal pass, and only an offer closes the gate |
| `Nodes.NodeReconciler.AlertNode` | internal/controller/node_controller.go:49-68 | an alert with the node's button goes out exactly when the gate of node and issue is open |
| `Nodes.NodeReconciler.Reconcile` | internal/controller/node_controller.go:24-47 | a pass leaves exactly the trace of its conditions in turn, with one button per alert |
| `Nodes.PassAlertsIssues` | internal/controller/node_controller.go:37-44 | after a pass each issue the node has is on record, and whatever was added is an alert for such an issue |
| `Nodes.PassAlertsDue` | internal/controller/node_controller.go:37-56 | an issue the node has is alerted in the pass if its gate was open when the pass began, and one it has not is not |
| `Nodes.IssueExact` | internal/controller/node_controller.go:38-43 | which condition raises which issue |
| `Lifecycle.CurrentStatus` | internal/controller/kubesolvconfig_controller.go:89-96 | the loop over container statuses computes the pod's status |
| `Lifecycle.LastSignalDecides` | internal/controller/kubesolvconfig_controller.go:89-96 | the last waiting or failed container gives the status, its reason or "Error"; with none it is the phase |
| `Lifecycle.HealsExact` | internal/controller/kubesolvconfig_controller.go:110-117 | a recovery is one of six statuses followed by Running |
| `Lifecycle.TrackingIsProjection` | internal/controller/kubesolvconfig_controller.go:98-124 | for every interleaving a pod's cached status is its latest, its new-pod notice is tried once, its recovery notice once per bad status directly followed by Running |
| `Autoscaler.DecisionExact` | internal/controller/kubesolvconfig_controller.go:215-231 | above 0.70 one more if the maximum allows, below 0.20 one less if the minimum does; between, at the thresholds and for NaN no patch |
| `Autoscaler.PassMoves` | internal/controller/kubesolvconfig_controller.go:166-240 | in a run only a taken patch of one of the deployment's pods moves the count, and as the reading says |
| `Autoscaler.NeverStrays` | internal/controller/kubesolvconfig_controller.go:193-231 | with min ≤ max the distance to [min, max] never grows and n readings move the count by at most n |
| `Autoscaler.NeverOvershoots` | internal/controller/kubesolvconfig_controller.go:215-231 | with any bounds, crossed ones included, no rise ends above max and no fall below min |
| `Autoscaler.SustainedHigh` | internal/controller/kubesolvconfig_controller.go:215-221 | sustained high CPU reaches max in exactly the remaining steps and stays |
| `Autoscaler.SustainedLow` | internal/controller/kubesolvconfig_controller.go:222-228 | sustained low CPU reaches min in exactly the remaining steps and stays |
| `Autoscaler.RunNeverStrays` | internal/controller/kubesolvconfig_controller.go:166-240 | along every trace whose passes take the autoscaler's decisions under bounds min ≤ max, the distance of the count to [min, max] never grows |
| `Autoscaler.DriftBound` | internal/controller/kubesolvconfig_controller.go:166-240 | along every legal trace whose passes take the autoscaler's decisions, whatever they read and whether or not the patches are taken, P pods move the count by at most P(T/15s+1) over an interval of length T |
| `Oom.FindContainer` | internal/controller/kubesolvconfig_controller.go:360-384 | the search loops find the target container |
| `Oom.TargetExact` | internal/controller/kubesolvconfig_controller.go:360-384 | by position: the first container that bears the name of the first killed status, and the very first container otherwise |
| `Oom.ProposalExact` | internal/controller/kubesolvconfig_controller.go:368-397 | a proposal names a container of the deployment, the killed one if it is there, and doubles its limit within 1Gi; the guardrail blocks exactly beyond |
| `Oom.DoublingChain` | internal/controller/kubesolvconfig_controller.go:386-403 | along every run of approved proposals a container bumped n times is at L·2^n and at most 1Gi; an unset one gets at most four bumps, the fourth ending at exactly 1Gi |
| `Oom.GuardrailForGood` | internal/controller/kubesolvconfig_controller.go:390-397 | once doubling would pass 1Gi, a container's limit and bump count never change again and every kill that targets it is blocked |
| `Rollback.SortByRevision` | internal/controller/kubesolvconfig_controller.go:517-521 | the array becomes a descending permutation of itself |
| `Rollback.RollbackDeployment` | internal/controller/kubesolvconfig_controller.go:498-550 | its errors exactly; else it sends the template of a listed ReplicaSet one revision back less its hash label, which the API takes or rejects, and leaves the source template as it was |
| `Rollback.SendsPredecessor` | internal/controller/kubesolvconfig_controller.go:512-549 | with at least two ReplicaSets in any order, a patch goes out exactly when one is at the deployment's revision less one, and is such a one's template, whole but for the hash label |
| `Rollback.RefusedEarly` | internal/controller/kubesolvconfig_controller.go:499-509 | the two errors before the search, exactly |
| `Rollback.RevisionExact` | internal/controller/kubesolvconfig_controller.go:513 | a revision that is a numeral reads as its number cut to 64 bits, an absent one as 0 |
| `Rollback.SortIrrelevant` | internal/controller/kubesolvconfig_controller.go:516-531 | the scan picks the same ReplicaSet from every sorted order as from the list itself exactly when no two carry the target revision |
| `Rollback.UnannotatedPredecessor` | internal/controller/kubesolvconfig_controller.go:507-535 | at revision 1, with at least two ReplicaSets listed, a patch is sent exactly when some listed revision is absent, unreadable or zero, and is that ReplicaSet's |
| `Sessions.SessionCache.GetOrCreateSession` | internal/ai/gemini.go:262-277 | the object takes the call step, last use updated in place |
| `Sessions.SessionCache.ReapIdle` | internal/ai/gemini.go:289-298 | the eviction loop, in any order, leaves exactly the entries used within 30 minutes |
| `Sessions.SameSession` | internal/ai/gemini.go:262-298 | in every interleaving calls of one chat with gaps of at most 30 minutes return one session |
| `Sessions.NeverShared` | internal/ai/gemini.go:262-277 | distinct chats never share a session |
| `Sessions.IdleBound` | internal/ai/gemini.go:285-298 | after a pass nothing is idle over 30 minutes; within five minutes of a pass nothing over 35 |
| `Relay.CrossPlatformSync.Push` | internal/alert/slack.go:250-294 | a push succeeds exactly when there is room |
| `Relay.CrossPlatformSync.Drain` | cmd/main.go:264-274 | the relay loop is the machine's take step repeated |
| `Relay.Delivery` | cmd/main.go:264-274 | in every interleaving: at most 100 buffered, first in first out, sent = taken + buffered, each platform has received exactly the other's taken messages in order |
| `Relay.DrainDelivers` | cmd/main.go:264-274 | left to itself the relay empties the channel, pushes nothing and delivers everything |
| `Relay.NeverStuck` | internal/alert/broadcaster.go:3 | a blocked push means the relay can take, and then the push goes through |

## Left out

- Gemini calls, prompts, JSON and the chat tool loop: the model's answers are inputs.
- Slack and Telegram transports, message wording and truncation; the team list and help texts.
- The Kubernetes, Prometheus and Metrics Server clients beyond a versioned store, the member ConfigMap and the records the decisions read.
- Memory quantities as text: limits are byte counts, and their printed form in an action id is any string.
- Random drawing of invite codes: codes are inputs assumed fresh.
- The operations behind the buttons other than scaling, rollback and restart (cordon, uncordon, pod deletion): single API calls. The memory patch is modelled as a merge of limits by container name.
- How the API server merges a template patch, and what it validates: a patch is what is sent, and a refusal is an input.
- Floating-point rounding of CPU and memory readings: readings are reals or NaN.
- The HTTP proxy backend, health reports, log and event formatting, flags and manifests.
- SortByRevision: the library's sort is stood in for by a copy of an insertion-sorted list; its contract promises only what an unstable sort does.
- ScaleDeployment: the back-off delay between attempts is not modelled; other writers may do anything between any two calls instead.

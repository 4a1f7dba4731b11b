# Kyvernetria in Dafny

A Dafny model of four parts of the kyvernetria build that carry real state, and proofs of what
they promise. `dafny verify dfyconfig.toml` goes over the whole project.

**The x-inactivation cell** (`Cell`, `CellProtocol`, `CellRuns`, `Wrapper`). A node's state
directory is shared by starters, crash reporters and supervisors. `Cell.StateDir` is the code's
own sequence of file operations; `CellProtocol` gives every process a program counter and every
system call a step, and shows that the lock makes `RecordCrash` indivisible: each interleaved run
is a run of a machine in which a report is one step. `CellRuns` proves the bounds over whole runs
on that machine and carries them back.

**The gestation controller** (`Gestation`, `GestationController`, `GestationStates`,
`GestationPasses`, `GestationRuns`, `ServiceMemory`, `Newborns`). The methods of `GestationController.Life` follow the
controller's functions statement by statement; together they are proved equal to `Gestation.Pass`,
one pass as a function of a status, a Deployment, a budget and what the pass observes.
`GestationStates` proves what one pass keeps and exactly when it delivers, rolls back and
discharges, `GestationPasses` what it makes of the objects and the records, told from what they
held before and hold after it, and `GestationRuns` what holds over every run against people who create, delete,
annotate, rescale, redeliver and edit the launch plan. `ServiceMemory` is the bounded memory of past services, `Newborns` the namespace
annotation from the controller that writes it to the admission plugin that reads it.

**Place memory** (`Placement`, `PlacementValues`, `PlaceMemory`). The countdown loop, the two text
encodings, what the annotation says after a recall, and the compare-and-swap loop of any number of
workers against other writers.

**The relationship graph** (`HostTokens`, `FieldTokens`, `ServiceIndex`, `Relationships`,
`NamedEdges`, `RelationshipNames`). The tokenizer against the shape of section 3.2 of RFC 3986, the
index against a naive scan, from a text to an edge, and object names that do not collide.

`Base`, `Text` and `Sorting` hold what these share. Times are integers of nanoseconds; recorded
times are whole seconds, as the code writes them.

What the environment is assumed to do:

- Cell: nobody deletes the choice file; the upgrading flag changes and the node reboots only
  outside a critical section; a critical section that is entered completes. The choice is renamed
  before the stamp is written (`x-inactivation/cell.go:195` and `:205`), so a process that dies
  between the two would leave an escape without a stamp.
- Gestation: the API writes of a pass succeed. Deployment UIDs are never used twice, nobody else
  uses the controller's labels, and `spec.replicas`, which may be edited at any time, is at least
  1, as the CRD demands.
- Place memory: node names are not empty and hold no comma, and an ordinal runs on one node.
- Relationships: Service names and namespaces are dotless labels, workload names are DNS names
  (section 2.1 of RFC 1123), and no two objects of a kind share a namespace and a name.

Where the code does other than one would read its documentation:

- The cooldown after an escape is counted from the start of the second it was stamped in, so it
  can end up to a second early (`CellRuns.CooldownStartsAtTheSecond` says when exactly).
- A Service in a namespace called `svc` is not found by its qualified names, because the lookup
  strips `.svc` first. `ServiceIndex.LookupFinds` holds for all namespaces, with that exception
  in it; `ServiceIndex.NamespaceSvcHides` is an instance.
- RFC 3986 allows an empty port; the tokenizer reads no host in `host:`
  (`HostTokens.EmptyPortHidesHost`, `EmptyPortOfDb`). `HostTokens.ReadsExactlyAuthorities` says which are read.
- RFC 3986 allows an `@` in a path, a query and a fragment. A field without `://` is cut at its
  last `@` all the same, so one there hides the authority: an image pinned by its digest gives no
  host for its registry. `HostTokens.FieldIsRead` is the exact rule, `AtInPathHidesHost` and
  `DigestHidesRegistry` are instances.
- Long names are cut and end in a digest so that they stay distinct. They do among each other as
  far as digests do, but an uncut name may end in the digest of a cut one
  (`RelationshipNames.NamesMeetOnlyByDigest`, `CutNameCanBeMet`).

## Model

| member | source | states |
|---|---|---|
| Cell.StateDir.Express | x-inactivation/cell.go:96-139 | first boot: whoever links first decides; a missing, garbled or lost choice answers as the code does |
| Cell.StateDir.RecentCrashes | x-inactivation/cell.go:252-270 | the loop over a history file keeps exactly the seconds in the window, in order; future and unparsable lines are ignored |
| Cell.StateDir.BlockedBy | x-inactivation/cell.go:213-240 | the order of the blocks: upgrading flag, boot already used, cooldown; a stamp from the future does not cool down |
| Cell.StateDir.ClearHistories | x-inactivation/cell.go:274-288 | an escape forgets every history file |
| Cell.StateDir.RecordCrash | x-inactivation/cell.go:159-210 | whatever path is taken, decision and new disk are those of the one-glance specification; in terms of the files it escapes if and only if an escape is due, and then writes choice, stamp and no history, and otherwise one more line |
| Cell.EscapesExactlyWhen | x-inactivation/cell.go:170-240 | a crash makes the node escape if and only if the lines within reach and this one make the threshold, the choice holds the reported allele, no upgrade is on, and the stamp is missing, or of another boot and unreadable, in the future or a cooldown old; and what each case leaves on disk |
| Cell.DecisionSays | x-inactivation/cell.go:170-240 | the count, the reason and the allele that a report is told, in terms of the files |
| Cell.PruningIsLossless | x-inactivation/cell.go:252-270 | what pruning at one moment drops no later moment would have counted |
| CellProtocol.DecidesAsAtOnce | x-inactivation/cell.go:170-206 | read history, read choice, read flag and stamp as separate steps decide what one glance at the deciding step would |
| CellProtocol.StepRefines | x-inactivation/cell.go:159-210 | each step of the step-per-system-call machine is invisible or exactly one step of the machine with atomic RecordCrash |
| CellProtocol.RunRefines | x-inactivation/cell.go:96-210 | every interleaved run of starters, supervisors and crash reporters is a run of the atomic machine |
| CellProtocol.HolderUndisturbed | x-inactivation/cell.go:96-127 | nothing an unlocked starter does spoils what a lock holder has read |
| CellRuns.OneCellOneChoice | x-inactivation/cell.go:96-139 | in every interleaving the choice stays an allele, at most one caller is told first boot, and all callers before the first escape get one allele |
| CellRuns.OnlyEscapesSwitch | x-inactivation/cell.go:189-206 | a step that changes a choice is the first link or the lock holder escaping to the other allele |
| CellRuns.OneEscapePerBoot | x-inactivation/cell.go:213-240 | with known boots that are never reused, no two escapes share a boot, whatever the clock does |
| CellRuns.EscapesAreRare | x-inactivation/cell.go:213-240 | under a nondecreasing clock escapes are a cooldown apart in recorded seconds, and a span of L seconds holds at most 1 + L / cooldown |
| CellRuns.CooldownStartsAtTheSecond | x-inactivation/cell.go:229-238 | the exact moment until which a stamp blocks: up to a second before a full cooldown has passed |
| CellRuns.CooldownCanEndEarly | x-inactivation/cell.go:229-238 | an escape and a moment 9.1 s later that a cooldown of 10 s no longer blocks |
| CellRuns.EscapesArePaidFor | x-inactivation/cell.go:170-206 | from an empty history, escapes times the threshold plus the crashes still counted never exceed the recorded crashes |
| CellRuns.PruningNeverMiscounts | x-inactivation/cell.go:252-288 | under a nondecreasing clock every decision in the log counted what the full log since the last escape gives |
| CellRuns.NoReportIsLost | x-inactivation/cell.go:159-210 | on disk, under any clock and from any directory: with nobody inside, a history file is what survived of its first lines and then every report that stands, each once and in order; only an escape or a later report whose window does not reach it removes one |
| CellRuns.EachReportCountsTheOthers | x-inactivation/cell.go:170-176 | however reports interleave, each counts every report before it that stands and is in its window, and itself |
| CellRuns.EachReportIsDecidedOnce | x-inactivation/cell.go:159-210 | a finished report has exactly one decision in the log, and one that has not entered has none |
| CellRuns.EscapesHappenWhenDue | x-inactivation/cell.go:159-240 | in every interleaving each report was decided in a state of the run, and escaped if and only if the files of that state made an escape due |
| CellRuns.AnswersAreHonest | x-inactivation/cell.go:96-139 | what each step of a starter reads, links and answers, case by case |
| Wrapper.Supervisor.Choose | x-inactivation/main.go:144-168 | the allele and the choice file in every case: pinned, always Xp, read, founded, lost to another starter, or refused |
| Wrapper.Supervisor.Exited | x-inactivation/main.go:287-304 | the cell is told exactly of an early, unasked, non-zero exit of an unpinned kube-apiserver |
| Wrapper.React | x-inactivation/main.go:240-266 | what one event makes the wrapper do, and what it sends |
| Wrapper.Attend | x-inactivation/main.go:238-267 | the loop over the events sends exactly what each of them calls for, and stops at the exit |
| Wrapper.SentAtMostOnce | x-inactivation/main.go:247-265 | a switch is followed once, and only then can the component be killed, once |
| Wrapper.Supervisor.Supervise | x-inactivation/main.go:220-268 | for every sequence of signals, ticks, kill timers and exits: what is sent is exactly every signal forwarded, SIGTERM at the first tick that shows the other allele before any signal, and SIGKILL where the timer fires after that; one report at most, exactly for a crash nobody asked for |
| Wrapper.Supervisor.Run | x-inactivation/main.go:125-168 | a whole life: the allele chosen, then a refusal with code 1 or the supervised ending and disk of that allele; other components and pinned ones never change the cell |
| GestationController.Life.Deliver | kubernetes/overlay/pkg/kyvernetria/controller/gestation/birth.go:48-137 | grace, missing Deployment and unusable selector wait; otherwise the annotation, the budget, the Deployment and the records of a birth |
| GestationController.Life.Announce | kubernetes/overlay/pkg/kyvernetria/controller/gestation/birth.go:76-79 | the newborn annotation names the selector and the first tier before the Deployment is updated |
| GestationController.Life.CreatePDB | kubernetes/overlay/pkg/kyvernetria/controller/gestation/birth.go:164-186 | the budget is created with the replicas but one, at least one; one of that name is left alone |
| GestationController.Life.DeletePDB | kubernetes/overlay/pkg/kyvernetria/controller/gestation/birth.go:189-209 | only a budget that care created and that still carries the label goes |
| GestationController.Life.ResolveRevisions | kubernetes/overlay/pkg/kyvernetria/controller/gestation/birth.go:213-238 | the loops over ReplicaSets find the birth revision and the highest one below it |
| GestationController.Life.Rollback | kubernetes/overlay/pkg/kyvernetria/controller/gestation/birth.go:323-342 | where the Deployment owns no ReplicaSet of the earlier revision nothing changes; otherwise it gets the template of the first one, and replicas, label, budget and records go back |
| GestationController.Life.ScorePass | kubernetes/overlay/pkg/kyvernetria/controller/gestation/birth.go:278-319 | a due score is recorded, and a rollback only with it |
| GestationController.Life.EndCare | kubernetes/overlay/pkg/kyvernetria/controller/gestation/birth.go:346-351 | the extra replica comes off where one was added, and the label |
| GestationController.Life.CarePass | kubernetes/overlay/pkg/kyvernetria/controller/gestation/care.go:70-103 | by age alone: tier 1, 2 or 3 with its class below 24, 48 and from 48 hours on, waiting from 72 hours on, or discharge there when two caregivers are named |
| GestationController.Life.Discharge | kubernetes/overlay/pkg/kyvernetria/controller/gestation/care.go:106-124 | care comes off the Deployment and is recorded as discharged |
| GestationController.Life.Depart | kubernetes/overlay/pkg/kyvernetria/controller/gestation/care.go:127-141 | a departure is recorded once, and takes the budget |
| GestationController.Life.LookAfter | kubernetes/overlay/pkg/kyvernetria/controller/gestation/care.go:42-66 | departure, or revisions, then scoring if in care, then care if still in care |
| GestationController.Life.Pregnancy | kubernetes/overlay/pkg/kyvernetria/controller/gestation/pregnancy.go:45-78 | Due once the day has come, Expecting before or while the day or size cannot be read |
| GestationController.Reconcile | kubernetes/overlay/pkg/kyvernetria/controller/gestation/controller.go:208-247 | one pass over the API objects and the newborn annotation is the pass function the theorems are about |
| GestationController.Sync | kubernetes/overlay/pkg/kyvernetria/controller/gestation/controller.go:167-205 | each Gestation is taken one pass on; with distinct selectors, a namespace whose lister copy is from before the pass then says of each selector and class exactly whether a service in care has them |
| GestationController.Turn | kubernetes/overlay/pkg/kyvernetria/controller/gestation/controller.go:183-193 | one Gestation's pass, and what it announced is so once it is over |
| GestationController.AdmitAfterSync | kubernetes/overlay/pkg/kyvernetria/admission/newborncare/admission.go:109-168 | end to end, from a pass to a pod: a pod that chose is untouched; another gets a class only of a service in care that selects it, above every global default, and always where the tiers stand |
| GestationStates.PassKeepsSound | kubernetes/overlay/pkg/kyvernetria/controller/gestation/controller.go:208-247 | every pass keeps: the phase fits the records; scores are a prefix of 1, 5, 10, 15, 20, none early, low from the second on except the last; Grown was discharged at 72 hours or later to two named caregivers; RolledBack names an earlier revision |
| GestationStates.PassMoves | kubernetes/overlay/pkg/kyvernetria/controller/gestation/controller.go:219-225 | the delivery number rises exactly when a delivery begins; after a birth only a rolled-back service delivers again; Departed is final |
| GestationStates.OneMoreScore | kubernetes/overlay/pkg/kyvernetria/gestation/apgar.go:150-162 | NextMinute keeps the scores a prefix in time, at most five of them |
| GestationStates.ResolvedEarlier | kubernetes/overlay/pkg/kyvernetria/controller/gestation/birth.go:213-238 | the previous revision, where there is one, is a smaller positive number than the birth's, and revisions once found stay |
| GestationStates.BeforeIsLatest | kubernetes/overlay/pkg/kyvernetria/controller/gestation/birth.go:226-234 | the revision to return to is the latest below the birth's |
| GestationStates.DeliversExactlyWhen | kubernetes/overlay/pkg/kyvernetria/controller/gestation/birth.go:48-137 | a pass in a delivery makes the launch if and only if a Deployment with a usable selector exists and no placeholder is held or two minutes are over; replicas, pause, label, budget and records of the launch; otherwise nothing is touched |
| GestationStates.BornExactlyWhen | kubernetes/overlay/pkg/kyvernetria/controller/gestation/birth.go:48-137 | a pass makes a launch if and only if its statuses show a birth that was not there before |
| GestationStates.RollsBackExactlyWhen | kubernetes/overlay/pkg/kyvernetria/controller/gestation/birth.go:278-318 | a pass rolls back if and only if the five-minute score is due and low, rollback is on, and an earlier revision exists |
| GestationStates.RollbackRecordsItsScore | kubernetes/overlay/pkg/kyvernetria/controller/gestation/birth.go:290-297 | a rollback happens only in the pass that records the minute-5 score, with that score |
| GestationStates.DischargesExactlyWhen | kubernetes/overlay/pkg/kyvernetria/controller/gestation/care.go:70-103 | a pass discharges if and only if 72 hours have passed since the recorded birth and two different caregivers are named, and it does not roll back |
| GestationStates.PassTier | kubernetes/overlay/pkg/kyvernetria/gestation/care.go:33-63 | after every pass the tier in care is that of the age, the last one held; NeedsCaregivers exactly from 72 hours on |
| GestationStates.PassNags | kubernetes/overlay/pkg/kyvernetria/controller/gestation/care.go:93-101 | a reminder is noted twelve hours or more after the last of the delivery, in recorded seconds, under any clock |
| GestationPasses.TiersByAge | kubernetes/overlay/pkg/kyvernetria/gestation/care.go:43-63 | after every pass a service in care has tier 1, 2 or 3 if and only if its age is below 24 hours, from 24 to 48, or from 48 on, with the class of that tier, and waits for caregivers if and only if it is 72 hours old |
| GestationPasses.CourseOfCare | kubernetes/overlay/pkg/kyvernetria/controller/gestation/care.go:70-124 | a pass over a service in care records the people its Deployment names, reminds exactly when 72 hours are over and the last reminder is twelve hours old, and dates a discharge |
| GestationPasses.TemplateFollowsTheRecord | kubernetes/overlay/pkg/kyvernetria/controller/gestation/birth.go:323-342 | a pass that rolls back gives the Deployment the template of the first ReplicaSet it owns at the revision it records; every other pass leaves the template as it was |
| GestationPasses.RevisionIsFound | kubernetes/overlay/pkg/kyvernetria/controller/gestation/birth.go:263-275 | the search among owned ReplicaSets finds the first one of a revision, wherever there is one |
| GestationPasses.GoesBackExactlyWhen | kubernetes/overlay/pkg/kyvernetria/controller/gestation/birth.go:278-342 | a pass rolls back if and only if the five-minute score is due and below 7, going back was asked for, both revisions are recorded and an owned ReplicaSet of the earlier one is left |
| GestationPasses.DepartsExactlyWhen | kubernetes/overlay/pkg/kyvernetria/controller/gestation/care.go:42-46 | a born service departs in the first pass that does not find the Deployment that was born, whatever its phase, and in no other |
| GestationPasses.ObjectsOfAPass | kubernetes/overlay/pkg/kyvernetria/controller/gestation/birth.go:189-351 | between launches the Deployment changes only in the pass that ends care, where the replica that was added and the label come off; the budget goes there or with the departure, if care made it |
| GestationPasses.PhaseBeforeBirth | kubernetes/overlay/pkg/kyvernetria/controller/gestation/pregnancy.go:45-78 | a service that is not delivered is Due if and only if a placeholder is at trimester 0, and nothing else about it changes |
| GestationPasses.DeliveryIsDated | kubernetes/overlay/pkg/kyvernetria/controller/gestation/controller.go:219-225 | a delivery that begins is dated, and drops what was recorded of the launch before; otherwise number and date stay |
| GestationPasses.SignsAre | kubernetes/overlay/pkg/kyvernetria/gestation/apgar.go:77-144 | when each of the five signs is best and when it is worst |
| GestationPasses.ScoresExactlyWhen | kubernetes/overlay/pkg/kyvernetria/controller/gestation/birth.go:278-319 | a pass over a service in care takes the score of minute 1, then 5, then one more every five up to 20 while the last is below 7, if and only if that minute has come, a revision is known and no rollback fails on it |
| GestationPasses.RevisionsAreFound | kubernetes/overlay/pkg/kyvernetria/controller/gestation/birth.go:213-238 | once the Deployment is observed a pass records the revision of the first ReplicaSet it owns with its template, and the latest number before it; recorded revisions stay |
| GestationPasses.NoRevisionNumber | kubernetes/overlay/pkg/kyvernetria/controller/gestation/birth.go:258-261 | a revision that is no number counts as none |
| GestationPasses.SecondIs | kubernetes/overlay/pkg/kyvernetria/controller/gestation/controller.go:249-262 | a recorded time is the start of its second |
| GestationPasses.NamesAreTrimmed | kubernetes/overlay/pkg/kyvernetria/gestation/care.go:78-98 | white space around a caregiver's name does not count |
| GestationPasses.TwoAreNamed | kubernetes/overlay/pkg/kyvernetria/gestation/care.go:78-98 | two caregivers are two names that differ in more than the case of letters |
| GestationRuns.EveryRun | kubernetes/overlay/pkg/kyvernetria/controller/gestation/controller.go:208-247 | over every run, edits of the launch plan included: sound states, each delivery number once, at most one rollback per delivery, a birth again only after a rollback, reminders twelve hours apart |
| GestationRuns.CountedStep | kubernetes/overlay/pkg/kyvernetria/controller/gestation/controller.go:219-225 | births are the rollbacks plus the one that lives |
| GestationRuns.NagsStep | kubernetes/overlay/pkg/kyvernetria/controller/gestation/care.go:93-101 | the reminders of a delivery stay spaced |
| GestationRuns.ReplicasAreConserved | kubernetes/overlay/pkg/kyvernetria/controller/gestation/birth.go:81-111 | with nobody else editing replicas: the count recorded at birth plus one in care unless autoscaled, exactly that count after rollback or discharge, whatever the plan has become; label and budget only during care |
| GestationRuns.LaunchCountStays | kubernetes/overlay/pkg/kyvernetria/controller/gestation/birth.go:81-93 | a Deployment that is delivered, rolled back and delivered again launches with the same count each time |
| GestationRuns.PassKeepsKept | kubernetes/overlay/pkg/kyvernetria/controller/gestation/birth.go:323-351 | one pass keeps the replica count, the label and the budget what they should be, error paths included |
| GestationRuns.TierOnlyRises | kubernetes/overlay/pkg/kyvernetria/controller/gestation/care.go:70-92 | under a nondecreasing clock the tier of one delivery only rises, to 3, and is held |
| GestationRuns.LaunchStays | kubernetes/overlay/pkg/kyvernetria/controller/gestation/controller.go:219-225 | delivery numbers only rise, a launch keeps its birth record until the next delivery, and a departure is final, over runs |
| ServiceMemory.BoundList | kubernetes/overlay/pkg/kyvernetria/gestation/memory.go:79-98 | owners and dependencies are the first 16 of the distinct trimmed entries in order |
| ServiceMemory.ListIsBounded | kubernetes/overlay/pkg/kyvernetria/gestation/memory.go:79-98 | what is kept is ascending, without repeats, at most 16 entries, each one that was said, trimmed and cut to 253 characters; one left out comes after all of a full list |
| ServiceMemory.KeyTellsApart | kubernetes/overlay/pkg/kyvernetria/gestation/memory.go:60-67 | where namespaces and UIDs have no dots, two records share a key if and only if they share namespace, name and the first eight characters of the UID |
| ServiceMemory.LeavingOrder | kubernetes/overlay/pkg/kyvernetria/gestation/memory.go:137-151 | which of two records goes first, in terms of their dates and keys |
| ServiceMemory.Records | kubernetes/overlay/pkg/kyvernetria/gestation/memory.go:104-119 | the records of the memory, each once, oldest birth first |
| ServiceMemory.SortsByBoth | kubernetes/overlay/pkg/kyvernetria/gestation/memory.go:137-151 | the stable second sort orders by departed first, oldest departure, then oldest birth, then key |
| ServiceMemory.Prune | kubernetes/overlay/pkg/kyvernetria/gestation/memory.go:137-160 | as few records go as must, never the one just written, and each that goes comes before each that stays |
| ServiceMemory.PutRecord | kubernetes/overlay/pkg/kyvernetria/gestation/memory.go:123-133 | stored and pruned, and reported as a change exactly when the memory did not say so already |
| ServiceMemory.Memory.Put | kubernetes/overlay/pkg/kyvernetria/controller/gestation/memory.go:66-79 | the birth date and the departure of an existing record are kept |
| ServiceMemory.WhatIsPut | kubernetes/overlay/pkg/kyvernetria/controller/gestation/memory.go:66-79 | after a put the record says what was said, field by field, with the first birth on record and the last departure |
| ServiceMemory.Memory.Depart | kubernetes/overlay/pkg/kyvernetria/controller/gestation/memory.go:82-92 | a living record is closed once; anything else is left alone |
| ServiceMemory.Memory.CloseDeparted | kubernetes/overlay/pkg/kyvernetria/controller/gestation/memory.go:96-106 | exactly the living records whose Deployment is gone or another one are closed |
| ServiceMemory.WhoIsClosed | kubernetes/overlay/pkg/kyvernetria/controller/gestation/memory.go:96-106 | a record gets the departure if and only if it has none and no Deployment of its namespace and name has its UID; the others stay |
| ServiceMemory.AlwaysKept | kubernetes/overlay/pkg/kyvernetria/gestation/memory.go:123-160 | in every state of every run each key is its record's Key and there are at most 256 records |
| ServiceMemory.OnlyTheLeastGoes | kubernetes/overlay/pkg/kyvernetria/gestation/memory.go:137-160 | a put stores its record, leaves the others as they were, and lets go of exactly one, the first in the leaving order, when there is no room among 256 |
| ServiceMemory.DatesNeverChange | kubernetes/overlay/pkg/kyvernetria/controller/gestation/memory.go:66-92 | as long as a record is kept, its birth date and its departure do not change |
| Newborns.DecodeOfEncode | kubernetes/overlay/pkg/kyvernetria/gestation/care.go:102-122 | decoding what was encoded gives the same entries, in order of selectors |
| Newborns.Namespaces.SetNewborn | kubernetes/overlay/pkg/kyvernetria/controller/gestation/care.go:145-161 | one workload's entry is set or removed |
| Newborns.SetSays | kubernetes/overlay/pkg/kyvernetria/controller/gestation/care.go:145-161 | after that it is the only entry with that selector, and the others are as they were |
| Newborns.Namespaces.SyncNewborns | kubernetes/overlay/pkg/kyvernetria/controller/gestation/care.go:165-188 | every namespace the lister has is made to list exactly its services in care |
| Newborns.DesiredByNamespace | kubernetes/overlay/pkg/kyvernetria/controller/gestation/care.go:166-172 | the loop over Gestations collects each namespace's entries |
| Newborns.SyncedSays | kubernetes/overlay/pkg/kyvernetria/controller/gestation/care.go:165-188 | a synced annotation names a selector and class if and only if a service in care has them |
| Newborns.SyncedIsMap | kubernetes/overlay/pkg/kyvernetria/controller/gestation/care.go:165-188 | with distinct selectors a synced annotation gives a selector one class |
| Newborns.AnnouncedExactly | kubernetes/overlay/pkg/kyvernetria/controller/gestation/care.go:145-161 | births announced within a pass keep an annotation saying exactly what is so, once the pass is over |
| Newborns.ClassFor | kubernetes/overlay/pkg/kyvernetria/admission/newborncare/admission.go:139-168 | the loops find the class of the first tier entry that selects the pod, if it exists and no global default is as high |
| Newborns.FirstMatchDecides | kubernetes/overlay/pkg/kyvernetria/admission/newborncare/admission.go:139-168 | the first entry with one of the three classes whose selector selects the pod decides: its class if that exists and every global default is lower, and none otherwise |
| Newborns.NoMatchNoClass | kubernetes/overlay/pkg/kyvernetria/admission/newborncare/admission.go:139-168 | without such an entry no class is given |
| Newborns.Admit | kubernetes/overlay/pkg/kyvernetria/admission/newborncare/admission.go:109-135 | a pod that named a class or priority, or is a mirror, is untouched; otherwise it gets that class and the annotation |
| Newborns.OnlyNewbornsAreProtected | kubernetes/overlay/pkg/kyvernetria/admission/newborncare/admission.go:139-168 | from an annotation that says exactly what is so, a class is given only if a service in care of the namespace selects the pod, and is its tier, above every global default |
| Newborns.NewbornsAreProtected | kubernetes/overlay/pkg/kyvernetria/admission/newborncare/admission.go:139-168 | and where the tiers stand above the global defaults every such pod gets one |
| Placement.FadeNodes | kubernetes/overlay/pkg/kyvernetria/placement/placement.go:204-210 | the in-place countdown loop is the simple specification: every running node, and the first others that fit |
| Placement.RecallNodes | kubernetes/overlay/pkg/kyvernetria/placement/placement.go:194-211 | the loops over the running nodes and the countdown give the specified list, whose order `PlacementValues.NewestHomesFirst` states |
| Placement.NodesBounded | kubernetes/overlay/pkg/kyvernetria/placement/placement.go:194-211 | for a repeat-free previous value the result is repeat-free and at most 16 long; it holds every running node and nothing that was not running or remembered |
| Placement.OldestFade | kubernetes/overlay/pkg/kyvernetria/placement/placement.go:194-211 | of the remembered nodes that do not run, those kept come before those let go |
| Placement.FadeOrdinals | kubernetes/overlay/pkg/kyvernetria/placement/placement.go:226-238 | the loop over descending ordinals deletes exactly the highest ones that do not run |
| Placement.RecallOrdinals | kubernetes/overlay/pkg/kyvernetria/placement/placement.go:213-240 | the loops over running nodes and ordinals give the specified map |
| Placement.OrdinalsKept | kubernetes/overlay/pkg/kyvernetria/placement/placement.go:213-240 | every running ordinal is at its current node; the size is at most the larger of 16 and the running ordinals |
| Placement.HighestFade | kubernetes/overlay/pkg/kyvernetria/placement/placement.go:226-238 | an ordinal that fades is higher than every ordinal kept that does not run |
| Placement.DecodeOrdinals | kubernetes/overlay/pkg/kyvernetria/placement/placement.go:144-157 | the loop over pairs, last one wins, malformed ones skipped |
| Placement.EncodeOrdinals | kubernetes/overlay/pkg/kyvernetria/placement/placement.go:160-171 | pairs in order of ordinals |
| Placement.OrdinalsRoundTrip | kubernetes/overlay/pkg/kyvernetria/placement/placement.go:144-171 | decoding undoes encoding |
| Placement.Recall | kubernetes/overlay/pkg/kyvernetria/placement/placement.go:183-192 | the value is that of the specification `Recalled`, whose properties the rows of `PlacementValues` and `RecallIsIdempotent` state |
| Placement.RecallIsIdempotent | kubernetes/overlay/pkg/kyvernetria/placement/placement.go:183-240 | recalling a recalled annotation changes nothing, for any previous string |
| PlacementValues.NewestHomesFirst | kubernetes/overlay/pkg/kyvernetria/placement/placement.go:183-211 | in the annotation every new home stands before every remembered one; the new ones are in order of name, the others in the order they had; up to 16 the result is exactly the former followed by the latter, and beyond that the last homes without a pod go until 16 are left; more than 16 nodes clear it |
| PlacementValues.NodesAreRead | kubernetes/overlay/pkg/kyvernetria/placement/placement.go:130-141 | nodes are read between commas |
| PlacementValues.OrdinalsAreRemembered | kubernetes/overlay/pkg/kyvernetria/placement/placement.go:183-240 | in a StatefulSet's annotation running ordinals are at their node and others where they were; up to 16 none is let go, and beyond that the highest that do not run go until 16 or only running ones are left |
| PlacementValues.PairIsRead | kubernetes/overlay/pkg/kyvernetria/placement/placement.go:144-157 | a pair is an int, the first equals sign and a node that is not empty |
| PlacementValues.OrdinalsAreRead | kubernetes/overlay/pkg/kyvernetria/placement/placement.go:144-157 | of two pairs for an ordinal the later one counts; what is no pair is skipped |
| PlacementValues.OrdinalsAreWritten | kubernetes/overlay/pkg/kyvernetria/placement/placement.go:160-171 | ordinal=node pairs with commas between them, in order of the ordinals |
| PlaceMemory.RunningPods | kubernetes/overlay/pkg/kyvernetria/controller/placememory/controller.go:210-233 | the loop gives each node its counted ordinals |
| PlaceMemory.ListedWhereRunning | kubernetes/overlay/pkg/kyvernetria/controller/placememory/controller.go:210-233 | a node is listed if and only if a pod of the holder has it, is in its running phase and is not being deleted; and with exactly the ordinals of those pods |
| PlaceMemory.TryOnce | kubernetes/overlay/pkg/kyvernetria/controller/placememory/controller.go:249-258 | one attempt writes only at the version it was computed from |
| PlaceMemory.Sync | kubernetes/overlay/pkg/kyvernetria/controller/placememory/controller.go:235-273 | at most five attempts; a write is Recall of exactly the value it replaces; alone it settles at once |
| PlaceMemory.SyncTwice | kubernetes/overlay/pkg/kyvernetria/controller/placememory/controller.go:235-273 | on an unchanged cluster a second sync writes nothing |
| PlaceMemory.WritesFormAChain | kubernetes/overlay/pkg/kyvernetria/controller/placememory/controller.go:235-304 | under any interleaving of workers and other writers, values form a chain of Recall steps and foreign writes |
| PlaceMemory.QuietClusterWritesOnce | kubernetes/overlay/pkg/kyvernetria/controller/placememory/controller.go:235-304 | with fixed pods and no other writer, all workers together write at most once, and then nothing is left to write |
| PlaceMemory.WorkersStop | kubernetes/overlay/pkg/kyvernetria/controller/placememory/controller.go:250-273 | in every run, whatever the others do, a worker takes at most ten steps, five of them attempts |
| HostTokens.HostTokens | kubernetes/overlay/pkg/kyvernetria/controller/relationships/relationships.go:190-210 | the loop over fields gives the specified tokens, which the rows of `FieldTokens` describe |
| HostTokens.AuthorityIsRead | kubernetes/overlay/pkg/kyvernetria/controller/relationships/relationships.go:224-242 | user, port, path, query and fragment never hide a host |
| HostTokens.ReadsExactlyAuthorities | kubernetes/overlay/pkg/kyvernetria/controller/relationships/relationships.go:224-242 | a text is read as a host if and only if it starts with a well-formed authority whose host is a name, and as that host |
| HostTokens.UrlHostIsFound | kubernetes/overlay/pkg/kyvernetria/controller/relationships/relationships.go:212-242 | after a scheme the host is found whatever user, port, path, query and fragment surround it |
| HostTokens.FieldIsRead | kubernetes/overlay/pkg/kyvernetria/controller/relationships/relationships.go:212-242 | what any field that starts with an authority is read as; without a scheme an at sign in the path, query or fragment hides the authority |
| HostTokens.AtInPathHidesHost | kubernetes/overlay/pkg/kyvernetria/controller/relationships/relationships.go:216-218 | a field whose host is hidden by an at sign in its path |
| HostTokens.DigestHidesRegistry | kubernetes/overlay/pkg/kyvernetria/controller/relationships/relationships.go:216-218 | an image pinned by digest gives no host, whatever its registry |
| HostTokens.EmptyPortHidesHost | kubernetes/overlay/pkg/kyvernetria/controller/relationships/relationships.go:231-236 | no host with an empty port is read |
| HostTokens.EmptyPortOfDb | kubernetes/overlay/pkg/kyvernetria/controller/relationships/relationships.go:231-236 | the instance db: |
| FieldTokens.TokensSplit | kubernetes/overlay/pkg/kyvernetria/controller/relationships/relationships.go:190-199 | the tokens of two texts with a separator between them are those of the first, followed by those of the second |
| FieldTokens.CharactersAre | kubernetes/overlay/pkg/kyvernetria/controller/relationships/relationships.go:192-198 | which characters separate fields, which end an authority and which make a host name |
| FieldTokens.ValueIsRead | kubernetes/overlay/pkg/kyvernetria/controller/relationships/relationships.go:200-208 | of key=value, where the key has no slash, the value is read |
| FieldTokens.WholeIsRead | kubernetes/overlay/pkg/kyvernetria/controller/relationships/relationships.go:200-208 | a field without an equals sign, or with a slash before its first one, is read from its start |
| FieldTokens.AssignedHostIsRead | kubernetes/overlay/pkg/kyvernetria/controller/relationships/relationships.go:190-242 | key=[user@]host[:port][tail] gives the host, strong where a user, a port or the place of the text says that it is one |
| FieldTokens.HostIsRead | kubernetes/overlay/pkg/kyvernetria/controller/relationships/relationships.go:190-242 | the same without a key |
| FieldTokens.AssignedUrlIsRead | kubernetes/overlay/pkg/kyvernetria/controller/relationships/relationships.go:190-242 | key=scheme://[user@]host[:port][tail] gives the host, always strong |
| FieldTokens.NameIsRead | kubernetes/overlay/pkg/kyvernetria/controller/relationships/relationships.go:237-241 | a host is read in small letters without its last dot, if it is made of letters, digits, dashes and dots |
| Text.LowerIs | kubernetes/overlay/pkg/kyvernetria/controller/relationships/relationships.go:237 | capitals become small letters and nothing else changes |
| Text.StringLeIs | kubernetes/overlay/pkg/kyvernetria/controller/relationships/relationships.go:128 | the order of names: a beginning before what it begins, then by the first character that differs |
| ServiceIndex.NewServiceIndex | kubernetes/overlay/pkg/kyvernetria/controller/relationships/relationships.go:271-278 | the loop makes an index that finds every Service under its keys and nothing else |
| ServiceIndex.LookupFinds | kubernetes/overlay/pkg/kyvernetria/controller/relationships/relationships.go:284-298 | a lookup finds a Service if and only if the name is one of its forms, except qualified names in a namespace called svc |
| ServiceIndex.NamespaceSvcHides | kubernetes/overlay/pkg/kyvernetria/controller/relationships/relationships.go:286-292 | a concrete Service of a namespace called svc that its qualified name does not find |
| Relationships.Served | kubernetes/overlay/pkg/kyvernetria/controller/relationships/relationships.go:87-104 | the double loop lists every Service and workload its selector matches, and their keys |
| Relationships.TalksOf | kubernetes/overlay/pkg/kyvernetria/controller/relationships/relationships.go:107-126 | the loops over texts and tokens, with what was seen and what is served skipped |
| Relationships.FoundMeansReached | kubernetes/overlay/pkg/kyvernetria/controller/relationships/relationships.go:284-298 | resolving through the index is scanning all Services |
| Relationships.TalkEdges | kubernetes/overlay/pkg/kyvernetria/controller/relationships/relationships.go:106-126 | the edges of one workload are those of the naive scan, with the first mention as evidence |
| Relationships.Graph | kubernetes/overlay/pkg/kyvernetria/controller/relationships/relationships.go:85-129 | the whole pass gives exactly the edges of the product of Services, workloads and mentions, each once, in order of name |
| NamedEdges.EdgesAre | kubernetes/overlay/pkg/kyvernetria/controller/relationships/relationships.go:85-129 | the edges of a graph are exactly: a Service to each workload of its namespace with every label it selects, and a workload to each other Service that one of its texts names, with the first place that does |
| NamedEdges.ReachedByName | kubernetes/overlay/pkg/kyvernetria/controller/relationships/relationships.go:284-298 | the host names that reach a Service, spelled out |
| NamedEdges.AssignedHostMakesEdge | kubernetes/overlay/pkg/kyvernetria/controller/relationships/relationships.go:85-242 | an argument key=[user@]name[:port][tail] makes an edge to the Service of that name in the workload's namespace |
| Relationships.MentionsAre | kubernetes/overlay/pkg/kyvernetria/controller/relationships/relationships.go:107-109 | the mentions of a template are the tokens of its texts in order, each with its place |
| Relationships.OneEdgeEach | kubernetes/overlay/pkg/kyvernetria/controller/relationships/relationships.go:85-129 | two parties have at most one edge of a type |
| Relationships.EdgesHaveTheirOwnNames | kubernetes/overlay/pkg/kyvernetria/controller/relationships/relationships.go:301-314 | no two edges of a graph share a name in a namespace, unless a name is cut |
| RelationshipNames.TalksName | kubernetes/overlay/pkg/kyvernetria/controller/relationships/relationships.go:301-309 | what the name of a talks-to edge looks like once lowered and trimmed |
| RelationshipNames.NameIsWritten | kubernetes/overlay/pkg/kyvernetria/controller/relationships/relationships.go:301-329 | the name of an edge that the graph can hold, piece by piece |
| RelationshipNames.LongNameIsCut | kubernetes/overlay/pkg/kyvernetria/controller/relationships/relationships.go:306-313 | a name of more than 253 characters keeps at most 242, without dots and dashes at the end, and its digest follows |
| RelationshipNames.MarkerIsLast | kubernetes/overlay/pkg/kyvernetria/controller/relationships/relationships.go:301-309 | only the last ".talks-to.svc-" of a name ends the workload's name |
| RelationshipNames.NamesDoNotCollide | kubernetes/overlay/pkg/kyvernetria/controller/relationships/relationships.go:301-314 | different relationships of a namespace have different names unless they are cut, dots and ".talks-to.svc-" in workload names included |
| RelationshipNames.CutNamesEndInDigests | kubernetes/overlay/pkg/kyvernetria/controller/relationships/relationships.go:306-312 | every name fits 253 characters; two cut names are equal only if their digests are |
| RelationshipNames.NamesMeetOnlyByDigest | kubernetes/overlay/pkg/kyvernetria/controller/relationships/relationships.go:301-314 | at any length, two different relationships of a namespace have one name only if two digests are equal or an uncut name ends in the digest of a cut one |
| RelationshipNames.CutNameCanBeMet | kubernetes/overlay/pkg/kyvernetria/controller/relationships/relationships.go:306-312 | the second case happens: which Service gives an uncut name equal to a cut one |

## Left out

- RelationshipNames.NamesDoNotCollide: leaves names longer than 253 characters to `NamesMeetOnlyByDigest`, since what their hash, an abstract function here, tells apart is not known.
- RelationshipNames.CutNamesEndInDigests: speaks of two cut names; `NamesMeetOnlyByDigest` adds a cut one that meets an uncut one.
- HostTokens.UrlHostIsFound: is about texts with a scheme; `FieldIsRead` covers those without.
- GestationController.Life.Pregnancy: states the phase only; trimester, reserved places and the placeholder Deployment are not modelled.
- CellRuns.OneEscapePerBoot: holds where boot ids are known and never reused; an unknown boot is not stamped.
- CellRuns.EscapesAreRare: assumes a clock that does not go back; `OneEscapePerBoot` and `EscapesArePaidFor` do not.
- GestationRuns.TierOnlyRises: assumes a clock that does not go back between the two passes; the tier after each pass is exact under any clock (`GestationStates.PassTier`).
- GestationRuns.ReplicasAreConserved: leaves out runs in which someone else, an autoscaler included, edits the replicas of the Deployment.
- GestationController.Sync: promises nothing of a namespace whose copy in the lister is older than the pass and happens to say what is wanted while the namespace itself did not, nor where two services in care of a namespace share a selector.
- Placement.NodesBounded: needs a previous value without repeats for its length and repeat-freedom; idempotence does not.
- ServiceMemory.Memory.Put: takes namespaces and names of at most 253 characters, as Kubernetes does; longer ones would be looked up under another key than they are stored under.
- Failed API writes inside a pass, and I/O errors inside an escape: the raised replica count and its decrement are not repeatable if the status write is lost, so nothing is claimed there.
- Files, flock, fsync, rename, exec and signals: atomic steps with their documented effect. The escape log and log messages are not kept.
- JSON is an injective encoding, a pod template and a hash are abstract values, and label selectors of Deployments, budgets and newborn entries are abstract predicates.
- Strings are sequences of ASCII characters where case is folded or white space trimmed.
- Integers are unbounded: replica counts and scores do not reach 2^31.
- Placeholder Deployments (trimesters, reservations) and screening: `deliver` sees only how many placeholders still hold room, `pregnancy` only the trimester.
- What the signs of a launch are observed from: pods, events and endpoints become the record of signs.
- Growth measurements, event texts, status messages, CRD and priority class installation, and the caches and queues in front of the reconcilers.
- What `remember` gathers for a record of a living service, the calls that hand records to the memory in a pass, and reading and saving the ConfigMap: `ServiceMemory` starts at the record.
- `templateTexts` and the suffixes that make an environment variable an address: a workload comes with its texts and their flag.
- Holder resolution from owner references, scheduling scores and the choice of holders to sync.
- The rewriting of arguments for the older release (`withEmulation`) is reduced to whether it succeeds, and random choice of an allele to its result.
- kyvctl, humanize, shell scripts, deployment files and patches.

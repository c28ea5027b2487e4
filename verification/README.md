# A model of wlm-operator in Dafny

wlm-operator runs batch jobs of a Slurm cluster from Kubernetes. This project models the parts of it
where code in different places has to agree, or where several parties act at once, and proves what
they keep.

* **Resources.** A job's limits are printed as `#SBATCH` headers, read back from a script, compiled to
  node requirements and compared with what a partition offers. The reader (`Batch`, `BatchLaws`,
  `Duration`, `Numerals`, `Int64`, `Text`, `Sequences`) undoes the printer (`Script`); both kinds of jobs get the same
  requirements, and a requirement holds exactly when the partition is large enough (`Affinity`,
  `PartitionCapacity`, `Partitions`, `Seconds`). All arithmetic is that of 64-bit integers, and a run-time panic is an outcome of its
  own (`Fault`).
* **Tailing a file.** A goroutine appends lines to a buffer while the server drains it and sends chunks
  (`Tail`). The state machine has a step for every locked section and one for the look at `isClosed`
  after the lock is released. The class `Reader` and the method `TailFile` are proved to make its runs.
* **Reconcilers.** Both job controllers and the pods they create, with any interleaving of client calls,
  failing calls, pods that change phase, pods that vanish and restarts of the operator (`Reconcile`, `Jobs`).
  Jobs come with their specs, which are translated by `Affinity`; a translation that panics takes the operator
  down. A call that takes effect but reports an error leads to the same state as one that succeeds, as neither
  controller does anything after it.
* **Configurator.** The loop that keeps one virtual kubelet pod per partition, with calls that fail at any
  point and nodes that register late (`Configurator`).
* **Files.** A directory is archived, sent in small chunks, written and extracted (`Paths`, `Archive`,
  `Transfer`).
* **Records.** The readers of `scontrol` and `sacct` output (`Records`).

A method that follows a loop or an object of the source is proved against a function of its inputs or
of the old state; the laws are then proved about that function, or about runs of a state machine whose
steps it makes.

## What does not hold, and when it does

* A generated script with a negative number of nodes cannot be read back, because the minus sign is
  taken for the dash of a range; and the wall time comes back modulo 2^64 nanoseconds
  (`Script.RoundTripExactIff`).
* The token walk compares the wrong index and panics on a header line that ends in a parameter without
  `=` and without a value; `examples/fox.yaml` has such a line (`BatchLaws.OutcomeByLine`,
  `BatchLaws.FoxFaults`).
* A script line of 65536 bytes or more ends the scan without an error, as the scanner's error is never looked
  at (`BatchLaws.LongLineIsSilent`). This does no harm if and only if what is left there holds no directive
  (`BatchLaws.LimitIsHarmlessIff`).
* `-c 0` is forgotten when another factor comes after it and wins when it comes last
  (`BatchLaws.TwoOrders`). So does a product that vanishes modulo 2^64: the value is the product of the factors
  after the last such point (`BatchLaws.AccumulatedSinceReset`). The order does not matter if and only if the rest
  has the same product however the factors are split into groups that vanish (`BatchLaws.OrderIrrelevantIff`).
* A SlurmJob that asks for nothing never gets a pod: the sentinel error it is compared with is not the one
  that is returned (`Affinity.EmptySlurmJobAlwaysFails`, `Reconcile.NeverGetsPod`).
* What the configuration leaves to Slurm and Slurm does not limit is reported as -1, or as 0 seconds, so it matches
  no positive request (`PartitionCapacity.UnlimitedMatchesNothing`).
* A configured wall time with a rest of more than half a second may be reported with one second more than it has,
  as the seconds are added as floating-point numbers (`Seconds.FloatSecondsAre`).
* A line that arrives between the unlock and the look at `isClosed` of the last read is lost
  (`Tail.Completeness`, `Tail.LineLost`).
* The comment on `Read` says that it returns EOF only after Close. It does so if and only if `readTail` has returned
  (`Tail.EndsIffFinished`), and that also happens without a request, when the tail library gives up on a read, seek
  or watch error and closes its lines (`Tail.EndsWithoutRequest`).
* Output of `scontrol` with nothing in it is read as one job with nothing set, so the guard against an empty list in
  the server's `JobInfo` never fires, or as one partition called "", at which the configurator deletes the pods of
  all others; output of `sacct` with nothing in it is an error (`Records.NoJobIsOne`, `Records.NoPartitionIsOne`,
  `Configurator.EmptyNameDeletesAll`, `Records.SacctRoundTrip`).
* A pod is created again after it was deleted too early or after a read of it failed
  (`Reconcile.AtMostOnceIff`), and a SlurmJob takes over the pod of the WlmJob with the same name but for
  `-wlm` (`Reconcile.IsolationIff`).
* Partition names that differ in case only keep the configurator from converging, and can make it delete
  a pod it has just created (`Configurator.ConvergesIff`, `Configurator.SafeIff`).
* An archive of `.`, `/` or a path that ends in `..` is never extracted (`Archive.ZipUnzip`).

## Model

| member | source | states |
|---|---|---|
| Duration.ParseDuration | pkg/slurm/parse.go:36-109 | parsing part by part and adding with wrapping 64-bit sums and products gives what the grammar of durations says |
| Duration.DurationLanguage | pkg/slurm/parse.go:36-109 | a string is accepted with a value if and only if it is one of the six documented shapes over 64-bit numerals, and the value is congruent to the exact total; "" and UNLIMITED, and only they, mean unlimited |
| Duration.ReadPrinted | pkg/slurm/parse.go:46-108 | reading any printed shape gives the exact nanosecond total modulo 2^64; a negative first component is an error |
| Duration.ReadPrintedExact | pkg/slurm/parse.go:104-108 | the value read is exact if and only if the true total fits, whatever wrapped on the way |
| Duration.MinutesForm | pkg/slurm/parse.go:74-78 | one number is minutes: "m" is read like "m:0", for every text m |
| Duration.MinutesSecondsForm | pkg/slurm/parse.go:79-87 | two numbers are minutes and seconds: "m:s" is read like "0:m:s" |
| Duration.HoursForm | pkg/slurm/parse.go:88-100 | three numbers are hours, minutes and seconds: "h:m:s" is read like "0-h:m:s" |
| Duration.DaysHoursForm | pkg/slurm/parse.go:50-59 | "d-h" is read like "d-h:0" |
| Duration.DaysMinutesForm | pkg/slurm/parse.go:60-71 | "d-h:m" is read like "d-h:m:0" |
| Duration.FullForm | pkg/slurm/parse.go:104-108 | "d-h:m:s" has ((24 d + h) 60 + m) 60 + s seconds of 10^9 nanoseconds, modulo 2^64 |
| Numerals.ParseIntLanguage | pkg/slurm/parse.go:52 | a text is read as a number if and only if it is an optional sign and digits that denote it |
| Numerals.ParseFormat | pkg/operator/controller/slurmjob/parse.go:100-107 | parsing undoes formatting for every 64-bit integer |
| Text.FieldsJoin | pkg/operator/controller/slurmjob/parse.go:50 | splitting on white space undoes joining words |
| Text.ScanLineIff | pkg/operator/controller/slurmjob/parse.go:38-40 | the scanner stops at the end and at a line of 65536 bytes, and nowhere else |
| Text.ScanLineCrLf | pkg/operator/controller/slurmjob/parse.go:39-40 | a carriage return before the line feed does not belong to the line |
| Batch.ApplySbatchParam | pkg/operator/controller/slurmjob/parse.go:73-132 | one directive changes the gathered resources as its meaning says |
| Batch.NextDirective | pkg/operator/controller/slurmjob/parse.go:51-63 | one turn of the indexed walk takes the first directive off the recursive pairing of the remaining tokens, or faults where the pairing ends dangling |
| Batch.ApplyHeader | pkg/operator/controller/slurmjob/parse.go:50-68 | the indexed walk over a header line refines the recursive pairing of its tokens |
| Batch.ExtractBatchResources | pkg/operator/controller/slurmjob/parse.go:28-71 | the scan computes the outcome (resources, error or panic) of the directives the script holds |
| Batch.FoldedIsRequested | pkg/operator/controller/slurmjob/parse.go:64-70 | applying directives one by one gives the last time, nodes and memory and the accumulated cpu factors, and fails exactly if some directive is bad |
| BatchLaws.DanglingIffLandsOnLast | pkg/operator/controller/slurmjob/parse.go:56-63 | a line dangles if and only if its walk lands on a last token without `=` |
| BatchLaws.DanglingIffOdd | pkg/operator/controller/slurmjob/parse.go:56-63 | without any `=` on the line it dangles if and only if the number of tokens is odd |
| BatchLaws.OutcomeByLine | pkg/operator/controller/slurmjob/parse.go:39-70 | extraction panics, fails or succeeds exactly as the first reached header line that is not clean says |
| BatchLaws.FirstHeaderFaults | pkg/operator/controller/slurmjob/parse.go:56-63 | a first header line without `=` makes the scan panic exactly for an odd number of tokens or a later panic |
| BatchLaws.SkippedLine | pkg/operator/controller/slurmjob/parse.go:41-44 | empty lines and lines that start with #! hold no directives and do not end the scan |
| BatchLaws.OtherLineEnds | pkg/operator/controller/slurmjob/parse.go:45-48 | the first other line that is not a header ends the scan |
| BatchLaws.HeaderIsRead | pkg/operator/controller/slurmjob/parse.go:50-68 | a header line contributes the pairs of its tokens |
| BatchLaws.AllWrittenAreRead | pkg/operator/controller/slurmjob/parse.go:54-63 | directives written as one token or as two, in any mixture, are read as these directives |
| BatchLaws.TimeNames | pkg/operator/controller/slurmjob/parse.go:86-93 | --time and -t set the time, an unlimited one nothing, and a malformed one is an error |
| BatchLaws.NodesNames | pkg/operator/controller/slurmjob/parse.go:94-104 | --nodes and -N set the nodes, of a range its lower end |
| BatchLaws.MemName | pkg/operator/controller/slurmjob/parse.go:105-111 | --mem sets the memory |
| BatchLaws.CpuNames | pkg/operator/controller/slurmjob/parse.go:112-129 | --cpus-per-task, -c and --ntasks-per-node are factors of the cpus |
| BatchLaws.OtherNames | pkg/operator/controller/slurmjob/parse.go:85-131 | all other parameters mean nothing |
| BatchLaws.FoxFaults | examples/fox.yaml:7-9 | the script of this file makes extraction panic at its third line, whatever follows |
| BatchLaws.LongLineIsSilent | pkg/operator/controller/slurmjob/parse.go:38-40 | a first line of 65536 bytes or more makes extraction succeed with no resources, whatever follows |
| BatchLaws.LimitIsHarmlessIff | pkg/operator/controller/slurmjob/parse.go:38-70 | the directives read are those of a scan without a limit if and only if such a scan finds none from the first too long line on |
| BatchLaws.AccumulatedSinceReset | pkg/operator/controller/slurmjob/parse.go:112-129 | for every list of factors the accumulated cpu value is the 64-bit product of those after the last point where the product so far vanished |
| BatchLaws.AccumulatedIsProduct | pkg/operator/controller/slurmjob/parse.go:112-129 | the accumulated cpu value is the 64-bit product of all factors unless that product vanishes |
| BatchLaws.ResultsAre | pkg/operator/controller/slurmjob/parse.go:117-129 | for every list of factors: the values its orders give are the products of the rests that splitting it into groups that vanish can leave |
| BatchLaws.OrderIrrelevantIff | pkg/operator/controller/slurmjob/parse.go:117-129 | for every list of factors: all orders give the same value if and only if all such rests have the same product |
| BatchLaws.OrderIrrelevantByZeros | pkg/operator/controller/slurmjob/parse.go:117-129 | with a zero or a product that does not vanish, all orders give the same value if and only if no factor is zero or all are |
| BatchLaws.TwoOrders | pkg/operator/controller/slurmjob/parse.go:117-129 | any zero among other factors gives two different values in two orders |
| BatchLaws.VanishingProducts | pkg/operator/controller/slurmjob/parse.go:117-129 | without a zero and with a vanishing product the order may matter or not: of 2^32, 2^32, 3 it does, of 2^32, 2^32 it does not |
| BatchLaws.ReorderedScripts | pkg/operator/controller/slurmjob/parse.go:85-131 | scripts whose directives are reordered, but for those of time, nodes and memory among themselves, ask for the same if and only if the factors since the last reset have the same product; so they do, and the cpu value is the product of all, unless that product vanishes |
| Script.BuildRunCommand | internal/red-box/api/slurm.go:522-561 | appending flags one by one gives the run command of the options |
| Script.BuildSLURMScript | internal/red-box/api/slurm.go:469-520 | appending lines gives the script of the request |
| Script.FlagsAre | internal/red-box/api/slurm.go:526-555 | every option gives its flag and there are no others |
| Script.RunIsPrinted | internal/red-box/api/slurm.go:557-560 | the run line names the program, the flags and the quoted image |
| Script.LocalCommands | internal/red-box/api/slurm.go:506-511 | a local image is run, after it has been verified if and only if unsigned images are not allowed |
| Script.RemoteCommands | internal/red-box/api/slurm.go:512-517 | any other image is pulled under the id, with -U if and only if unsigned images are allowed, then the id is run and removed |
| Script.LinesAre | internal/red-box/api/slurm.go:487-519 | the lines of the text are the preamble and these commands |
| Script.CommandEndsScan | pkg/operator/controller/slurmjob/parse.go:45-48 | a text that starts with a command holds no directives, whatever the command contains |
| Script.ScriptDirectives | internal/red-box/api/slurm.go:487-503 | a generated script holds exactly the printed directives, in order, for every image, options and id |
| Script.ScriptRoundTrip | internal/red-box/api/slurm.go:469-520 | reading a generated script gives the resources of the request, or an error exactly for negative nodes |
| Script.RoundTripExactIff | internal/red-box/api/slurm.go:469-520 | the round trip is exact if and only if nodes is not negative and the wall time fits |
| Affinity.AffinityForResources | pkg/operator/controller/affinity.go:51-95 | the conditional appends give the terms of the non-zero resources, or the sentinel when there are none |
| Affinity.RequirementsAre | pkg/operator/controller/affinity.go:55-82 | there is a term for each resource asked for, under its label and with one less than asked, and no other |
| Affinity.EmptySlurmJobAlwaysFails | pkg/operator/controller/slurmjob/pod.go:26-33 | a SlurmJob gets a pod if and only if its script is read and asks for something; otherwise the controller's own sentinel comes back as an error |
| Affinity.SameAffinityIff | pkg/operator/controller/wlmjob/pod.go:28-38 | a SlurmJob with the generated script and a WlmJob with the same resources get the same affinity if and only if nodes is not negative and something is asked for |
| Affinity.MatchingMeansCapacity | pkg/operator/controller/affinity.go:53-82 | with labels equal to a capacity all Gt terms hold exactly when each number asked for is at most the one offered, for every 64-bit request |
| Affinity.MatchingIsMonotone | pkg/operator/controller/affinity.go:53-82 | a larger partition matches whatever a smaller one does |
| PartitionCapacity.ParseResources | pkg/slurm/parse.go:111-190 | collecting fields in a map and reading limits gives what the first field of each key says |
| PartitionCapacity.FieldLanguage | pkg/slurm/parse.go:119-122 | a field has a value under a key if and only if it is key=value with no other equals sign |
| Partitions.PartitionIsRead | pkg/slurm/parse.go:111-190 | a printed partition is read as what it says: limits, totals where there are none, the time, zero where it says nothing |
| Partitions.MalformedIsAnError | pkg/slurm/parse.go:151-154 | a limit that is neither a numeral nor UNLIMITED makes the partition unreadable |
| Partitions.MalformedTimeIsAnError | pkg/slurm/parse.go:128-134 | so does a maximum time in none of the shapes |
| Partitions.PrintedMatching | internal/red-box/api/slurm.go:322-333 | a request matches a printed partition exactly when each number it asks for is at most the one the text says |
| PartitionCapacity.OnlyFirstsMatter | pkg/slurm/parse.go:117-189 | the result depends on the first field of each of the six keys only |
| PartitionCapacity.InsertedFieldIgnored | pkg/slurm/parse.go:118-124 | a field with another key, or after a field with the same key, has no effect wherever it is inserted |
| PartitionCapacity.Report | internal/red-box/api/slurm.go:299-335 | each number of the response is the configured one when it is not zero and not automatic, else the parsed one; seconds are those of floating-point arithmetic |
| PartitionCapacity.ConfiguredWins | internal/red-box/api/slurm.go:322-333 | a configured number is offered unless it is zero or automatic, and the found one otherwise |
| Seconds.FloatSecondsAre | internal/red-box/api/slurm.go:304 | for every duration and every rounding that keeps the order and halves of integers: the seconds are the whole ones, or one more if the rest is more than half a second |
| Seconds.OneMoreIff | internal/red-box/api/slurm.go:304 | it is one more if and only if the rounded sum of the seconds and the rounded rest reaches it |
| PartitionCapacity.WholeSecondsAreReported | internal/red-box/api/slurm.go:331-333 | wall times in whole seconds are reported as they are |
| PartitionCapacity.UnlimitedIsReported | pkg/slurm/parse.go:128-187 | for every configuration: a component left to Slurm and not limited there is reported as -1, or as 0 seconds |
| PartitionCapacity.UnlimitedMatchesNothing | pkg/slurm/parse.go:128-187 | for every configuration: such a component matches no positive request |
| PartitionCapacity.ReportMatching | internal/red-box/api/slurm.go:322-333 | a request matches the reported labels exactly when each number is at most the chosen one |
| Tail.Reader.WriteLine | pkg/tail/reader.go:85-87 | a line and a line feed are appended to the buffer |
| Tail.Reader.ReadLocked | pkg/tail/reader.go:53-55 | at most a buffer full is taken off the front, with the error of io.ReadFull |
| Tail.Reader.Read | pkg/tail/reader.go:50-61 | the bytes are those of the locked part, the error depends on isClosed later, and both are a run of the machine |
| Tail.TailFile | internal/red-box/api/slurm.go:211-238 | the loop over one reused buffer makes exactly the run that a schedule of its turns stands for, the other goroutine acting between turns, before the check and before the send |
| Tail.Conservation | pkg/tail/reader.go:52-93 | in every interleaving, sent bytes, bytes in hand and buffer make the text appended so far |
| Tail.ClientHasPrefix | internal/red-box/api/slurm.go:224-237 | the client always has a prefix of the text, in chunks of 1 to 128 bytes |
| Tail.CheckingWindow | pkg/tail/reader.go:53-60 | between unlock and check the history splits at the unlock, and only the other goroutine has acted since |
| Tail.Completeness | pkg/tail/reader.go:53-72 | after a read error the client misses exactly the lines appended between the last unlock and its check, so none if isClosed was set before that lock |
| Tail.LineLost | pkg/tail/reader.go:56-60 | a line that arrives in that window is lost |
| Tail.EndsIffFinished | pkg/tail/reader.go:50-73 | after any run that left the loop waiting, polling on ends the stream with a read error if and only if readTail has returned |
| Tail.EndNeedsFinish | pkg/tail/reader.go:56-72 | every stream that ended with a read error did so after readTail returned |
| Tail.EndsWithoutRequest | vendor/github.com/hpcloud/tail/tail.go:337-340 | such an end needs no request of the client |
| Tail.DrainTime | internal/red-box/api/slurm.go:224-237 | a closed buffer of b bytes is drained in exactly ceil(b/128)+1 ticks, and the loop is never stuck before |
| Tail.StopsIff | internal/red-box/api/slurm.go:218-236 | the loop stops for a done context, or for a failed send, if and only if that has happened |
| Tail.StoppedForGood | internal/red-box/api/slurm.go:218-236 | after any stop nothing is read or sent |
| Tail.InNumbers | internal/red-box/api/slurm.go:211 | the chunk size is 128 |
| Reconcile.BoundedCreation | pkg/operator/controller/slurmjob/slurmjob_controller.go:120-147 | in every run of both controllers a job's pod is created at most 1 + (deletions while the recorded status is empty) + (status writes after a failed read of the pod) times |
| Reconcile.BoundReached | pkg/operator/controller/slurmjob/slurmjob_controller.go:120-147 | for all counts of such deletions and writes there is a run that reaches the bound |
| Reconcile.AtMostOnceIff | pkg/operator/controller/wlmjob/wlmjob_controller.go:118-145 | a pod is created at most once in all runs with given counts if and only if both counts are zero |
| Jobs.CollisionIff | pkg/operator/controller/wlmjob/pod.go:42 | two jobs share a pod name if and only if they are the same or a SlurmJob is named like a WlmJob plus -wlm |
| Jobs.PodNamesAre | pkg/operator/controller/wlmjob/pod.go:42 | the names of the pods are those of the jobs plus -job and -wlm-job |
| Reconcile.IsolationIff | pkg/operator/controller/slurmjob/pod.go:37 | in every run each recorded status is empty or a phase of that job's own pod, if and only if no running jobs collide so |
| Reconcile.ClashBreaksIsolation | pkg/operator/controller/slurmjob/slurmjob_controller.go:120-142 | colliding jobs have a run in which a status is recorded that the job's own pod never had |
| Reconcile.ConvergesInTwo | pkg/operator/controller/slurmjob/slurmjob_controller.go:88-148 | undisturbed, two reconciles of a translatable job settle it, and a reconcile changes nothing exactly when it is settled |
| Reconcile.QuietRun | pkg/operator/controller/slurmjob/slurmjob_controller.go:88-148 | an undisturbed reconcile is a run of the machine |
| Reconcile.TranslationIs | pkg/operator/controller/wlmjob/pod.go:28-38 | a SlurmJob is translated, fails or panics as its script says, a WlmJob is always translated, and the pod has the job's pod name |
| Reconcile.NeverGetsPod | pkg/operator/controller/slurmjob/slurmjob_controller.go:106-111 | in every run, with restarts, a SlurmJob whose script asks for nothing, is malformed or panics never gets a pod |
| Reconcile.Cluster.Translate | pkg/operator/controller/slurmjob/slurmjob_controller.go:106-111 | the translation of a job's spec panics, fails or gives a pod of the job's pod name exactly as its script and the cluster's state say |
| Reconcile.Cluster.Reconcile | pkg/operator/controller/slurmjob/slurmjob_controller.go:88-148 | the method, with others acting between its calls, any call failing and the job translated from its spec, leads to the state of its specification |
| Reconcile.Cluster.CheckPod | pkg/operator/controller/wlmjob/wlmjob_controller.go:118-139 | reading the pod decides between stopping, creating and writing; a read that fails but not with NotFound goes on to write |
| Reconcile.ReconcileIsARun | pkg/operator/controller/wlmjob/wlmjob_controller.go:86-146 | that state is reached by a run of the machine, so all laws over runs hold of the method |
| Reconcile.FailuresChangeNothing | pkg/operator/controller/slurmjob/slurmjob_controller.go:131-147 | failed calls change no status and no pod, and a failed creation or write ends the reconcile |
| Configurator.PodNameIff | cmd/configurator/main.go:344-347 | two partitions share a pod name if and only if their names differ in the case of letters at most |
| Configurator.PodNameIs | cmd/configurator/main.go:345-347 | without capital letters the pod is called slurm-host-partition |
| Configurator.NotIn | cmd/configurator/main.go:320-342 | the nested loops give the elements that are missing, in order |
| Configurator.MissingIs | cmd/configurator/main.go:320-331 | an element is in the difference if and only if it is in the first list and not in the second, as often as it was |
| Configurator.PartitionNames | cmd/configurator/main.go:308-318 | the loop gives the labels of the labelled nodes, in order |
| Configurator.LabelsAppend | cmd/configurator/main.go:311-315 | the names of more nodes are those of the first, followed by those of the others |
| Configurator.LabelsOfOne | cmd/configurator/main.go:312-314 | a node gives its label, or nothing if it has none |
| Configurator.LabelsCount | cmd/configurator/main.go:309-318 | every name comes up as often as there are nodes with that label |
| Configurator.Namespace.CreateNodeForPartitions | cmd/configurator/main.go:146-156 | the loop stops at the first call that fails |
| Configurator.Namespace.DeleteControllingPod | cmd/configurator/main.go:158-168 | the loop stops at the first call that fails |
| Configurator.CreationAnswers | cmd/configurator/main.go:149-152 | a refused creation does nothing, one whose answer is lost is carried out, and both are errors |
| Configurator.DeletionAnswers | cmd/configurator/main.go:162-165 | the same for deletions |
| Configurator.Namespace.WatchPartitions | cmd/configurator/main.go:110-141 | with the registered nodes listed a tick is a step of the machine, deletions following also after a failed creation, and nothing when a listing failed |
| Configurator.RoundCloses | cmd/configurator/main.go:126-168 | with calls failing anywhere, a round never enlarges the difference between represented and listed partitions, shrinks it if a call took effect and empties it if none failed |
| Configurator.ConvergesIff | cmd/configurator/main.go:126-168 | rounds without faults reach exactly the listed partitions if and only if no two listed names differ in case only |
| Configurator.ListedIsSpared | cmd/configurator/main.go:136-141 | a round never deletes the pod of a listed partition if names differ in more than case |
| Configurator.SafeIff | cmd/configurator/main.go:118-141 | no run with late nodes deletes the pod of a listed partition, if and only if no two names differ in case only |
| Configurator.BlockedForever | cmd/configurator/main.go:147-152 | while the node of a pod does not register, no partition listed after it gets a pod |
| Configurator.EmptyNameDeletesAll | cmd/configurator/main.go:138-141 | a round with only "" in its list leaves no pod of another partition |
| Paths.BelowIff | pkg/slurm/slurm.go:456-459 | the textual prefix check on clean paths holds if and only if one path is strictly below the other and that is not the root |
| Paths.JoinResolves | pkg/slurm/slurm.go:456 | joining a clean rooted path with any text enters the text element by element |
| Paths.DotDotCancels | pkg/slurm/slurm.go:456 | a name and ".." after it cancel |
| Paths.DotDotAtFront | pkg/slurm/slurm.go:456 | ".." at the root stays there |
| Paths.DotsAreSkipped | pkg/slurm/slurm.go:456 | "." and empty elements mean nothing |
| Paths.RelToParent | pkg/slurm/slurm.go:400 | relative to the parent of the source, what is below the source is called by the source's last name and the names below |
| Paths.RelIs | pkg/slurm/slurm.go:400 | the relative path goes up to where two paths part and down again |
| Archive.ZipFile | pkg/slurm/slurm.go:373-427 | the walk gives one entry for everything found, in order, and cannot fail on names |
| Archive.CheckIff | pkg/slurm/slurm.go:454-474 | for any entry name, extraction goes on if and only if the name leads strictly below a destination that is not the root |
| Archive.EntryIsMade | pkg/slurm/slurm.go:461-490 | an extracted entry is a directory if its mode or a final slash says so, and otherwise a file with its content |
| Archive.ClimbingIsRefused | pkg/slurm/slurm.go:455-459 | an entry that climbs out of the destination is refused and nothing is made |
| Archive.Confinement | pkg/slurm/slurm.go:429-491 | whatever the archive holds, nothing outside the destination changes but that missing directories on the way to it are made |
| Archive.EntryLeads | pkg/slurm/slurm.go:399-403 | every entry of an archive leads to its own place below destination/base and is a directory if what was found is one |
| Archive.ZipUnzip | pkg/slurm/slurm.go:373-491 | for all trees, sources, destinations and disks: when extraction succeeds (if and only if), and that the disk then has the tree put over it |
| Archive.RebuildsExactly | pkg/slurm/slurm.go:373-491 | where nothing was before, exactly the tree is rebuilt and nothing else changes but created ancestors |
| Archive.PlacedIs | pkg/slurm/slurm.go:385-426 | what a placed tree occupies is what looking names up in the tree finds |
| Archive.Disk.UnzipFile | cmd/results/main.go:251-288 | the method does what its specification says to the disk, also when it fails |
| Archive.Disk.Unzip | cmd/results/main.go:226-249 | entries are extracted up to the first that fails |
| Transfer.File.Read | internal/red-box/api/slurm.go:159-161 | a read puts the next bytes at the front of the reused buffer and leaves the rest of it |
| Transfer.SendFile | internal/red-box/api/slurm.go:152-178 | the loop over the reused buffer sends exactly the chunks of its specification for all short reads and failures |
| Transfer.SentIsPrefix | cmd/results/main.go:89-105 | what is sent is a prefix of the file in chunks of 1 to 128 bytes, and all of it if the end was seen |
| Transfer.ReceiveFile | internal/red-box/api/slurm.go:253-268 | the loop writes the chunks that arrive, up to the first failing write |
| Transfer.TransferExact | cmd/results/main.go:142-158 | what is written is always a prefix of the file, and the receiver is satisfied if and only if nothing went wrong, with the whole file |
| Transfer.ShortReadsAreHarmless | internal/red-box/api/slurm.go:160-175 | reads of any size lead to the end of the file if none fails |
| Transfer.ReceivedIsPrefix | internal/red-box/api/slurm.go:253-268 | what is written is a prefix of what arrives, and all of it exactly when the stream finished and no write failed |
| Transfer.FirstFailureLeaves | internal/red-box/api/slurm.go:256-260 | the first failing write leaves the chunks before it and the bytes it has written |
| Transfer.CutLeaves | internal/red-box/api/slurm.go:253-267 | a connection cut after k chunks leaves exactly these chunks, and the receiver is told |
| Transfer.Create | pkg/slurm/slurm.go:184-188 | the file is made if and only if its directory is there and no directory is in its place |
| Transfer.Upload | cmd/results/main.go:67-117 | the driver, with every call failing or unanswered, leads to the specified disk |
| Transfer.Download | cmd/results/main.go:119-167 | the driver, with every call failing or unanswered, leads to the specified disk |
| Transfer.ArrivedIs | pkg/slurm/slurm.go:179-189 | the archive arrives if and only if nothing went wrong and the disk has room for it, the directories on the way to it being made, and in any case at most those and a prefix of it are new |
| Transfer.UploadExact | cmd/results/main.go:67-117 | an upload succeeds if and only if nothing went wrong and the disk can take archive and tree, and then holds both and the directories on the way to them and is otherwise unchanged |
| Transfer.DownloadExact | cmd/results/main.go:119-167 | the same for a download, which needs two answers less |
| Transfer.BrokenTransfer | internal/red-box/api/slurm.go:242-272 | if the transfer fails, in either direction, nothing is extracted and the archive written is a prefix of the true one |
| Transfer.LostAnswer | cmd/results/main.go:107-114 | with the last answer on the stream or the call to extract lost nothing is extracted, with only the answer to that call lost the disk is as if it had come; the upload fails either way |
| Transfer.TreeArrives | cmd/results/main.go:67-167 | in both directions exactly the tree arrives where nothing was before, and nothing else changes but the archive and created ancestors |
| Records.ParsePartitionsNames | pkg/slurm/parse.go:192-210 | for every block the value of its last name field, or nothing |
| Records.NamesRoundTrip | pkg/slurm/parse.go:192-210 | printed partitions are read back by the names last given in them, in order; of none one called "" is read |
| Records.TimeIsRead | pkg/slurm/parse.go:255-268 | "" and "unknown" in any case are no time whatever the layout, every other text is read by it |
| Records.KeysAreFieldNames | pkg/slurm/slurm.go:65-83 | the keys are the tags of the struct, in its order |
| Records.FillFromSlurmFields | pkg/slurm/slurm.go:332-371 | filling fails if and only if some time or duration is malformed, and sets under every tag what the last field says and nothing else |
| Records.JobInfoFromScontrolResponse | pkg/slurm/slurm.go:306-330 | as many records as blocks, in order, or none if some block cannot be read |
| Records.NoPartitionIsOne | pkg/slurm/parse.go:196-197 | output with nothing in it is read as one partition called "" |
| Records.NoJobIsOne | pkg/slurm/slurm.go:307-310 | output with nothing in it is read as one job with nothing set |
| Records.BlocksRoundTrip | pkg/slurm/parse.go:196 | printed blocks are found again in number and order, whatever white space surrounds them, if and only if there is one; of none an empty one is found |
| Records.RecordsRoundTrip | pkg/slurm/slurm.go:306-322 | of printed records the value last given under every key is read back, record by record, if and only if there is a record |
| Records.JobsRoundTrip | pkg/slurm/slurm.go:306-371 | printed jobs are read back as the same jobs, texts, times and durations, in their order, whatever the layout of their records and the shape of their durations, if and only if there is a job |
| Records.RecordOfGives | pkg/slurm/slurm.go:65-83 | every printable job of which anything is set has such a record |
| Records.ParseSacctResponse | pkg/slurm/parse.go:212-253 | all lines are read in order, or none if one is malformed |
| Records.StepLanguage | pkg/slurm/parse.go:217-248 | a line is a step if and only if it has seven sections, readable times and an exit code of two parts |
| Records.ReadableIff | pkg/slurm/slurm.go:345-363 | a field makes a record unreadable if and only if it is a malformed time or duration |
| Records.SacctRoundTrip | pkg/slurm/parse.go:214-252 | printed job steps are read back, each of them and in their order, if and only if there is one; none is an error |

## Left out

- Running Slurm's commands, signals, flags, logging, gRPC itself, generated code, informers and caches: plumbing without claims of its own.
- Text is a sequence of Unicode characters: invalid UTF-8 is not modelled, and lower-casing is that of ASCII letters.
- Options of a container request are always given: the source would panic on a request without them.
- The verbs that fmt leaves or reports when an image, option or id holds `%` are a parameter of the printer; the round trip holds for every rendering. The generated id is a parameter too.
- Feature lists, job and step conversions to the wire format, node selectors, tolerations and the pod template: field copying.
- Parsing of timestamps is a parameter of the record readers.
- The internals of the tail library, of the archive encoding and of the directory walk: lines, a lossless encoding and the walked tree are taken as given.
- File modes, the umask, symbolic links, relative destinations, and disks that fill up during extraction.
- A source that ends in a slash is not clean: its archive would be created inside the directory that is being archived.
- Deletion of jobs, garbage collection, stale caches, leader election, edits of a status by users, and two reconciles of one job at the same time.
- Pods that others create under a job's pod name, and pods stored with an empty phase.
- Weak memory: the unlocked read and write of isClosed are atomic steps.
- Whether the API server accepts a name: every partition name gives a valid pod name.
- Seconds.FloatSecondsAre: of the rounding to 64-bit floating point only that it keeps the order and halves of integers is used; Seconds.OneMoreIff is stated through it.
- BatchLaws.AccumulatedIsProduct: is about products that do not vanish; the others are covered by BatchLaws.AccumulatedSinceReset.
- Records.RecordOfGives: is about durations of whole non-negative seconds and texts without white space and equals signs, as no record gives others.
- Records.RecordsRoundTrip: keys and values hold no white space and no equals sign, as a printed field that does is not read at all.

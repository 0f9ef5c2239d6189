# chef-webhook-listener, modelled in Dafny

`chef-webhook-listener.rb` is a Sinatra service. It receives a GitHub push
hook on `post '/chefdeploy'`. For every commit whose message carries a
`#chefdeploy:<cookbook>` directive, it runs a four-step pipeline:

1. check the Chef repository out into a shared directory, removing any stale
   checkout first;
2. upload the cookbook with `knife`;
3. mail the committer a report chosen from three templates;
4. delete the checkout.

This project models the decision logic inside that glue:

- **Directive extraction** (`Directive`, `directive.dfy`). A hand-written
  scanner stands in for the regex `/#chefdeploy:([\w\-]+)/`. It finds the
  leftmost marker followed by a name character, then takes the greedy run of
  name characters. Ruby's `String#split(",")` is modelled too, including the
  dropping of trailing empty fields.
- **Status pairs and the notification** (`Notify`, `notify.dfy`). The
  `[output, flag]` arrays become a record, and the notifier's `if/elsif/else`
  becomes a template choice with the exact subject and body texts. The e-mail
  is a record with to, cc, from, subject and body.
- **The handler and its pipeline** (`Listener`, `listener.dfy`). The class
  `Deployer` has two fields: one boolean for "the checkout directory exists",
  and the trace of external effects. A trace is a sequence of `Remove`,
  `Mkdir`, `Clone`, `Upload`, `Deliver(mail)` and `Cleanup` events; the
  `Clone` event records whether git exited with status 0. Its
  methods follow `check_out_cookbook`, `upload_to_chef`, `notify_comitter`,
  `cleanup` and the two nested loops of the handler. They are proved against
  the specification functions `PipelineTrace`, `Trace` and `PushTrace`.
  These functions, like `Notify.ChooseTemplate`, `Listener.CommitJobs` and
  `Listener.Jobs`, carry no `ensures` of their own, because they are unfolded
  inside every proof about the handler's loops. Their properties are the
  lemmas named with them in the table below.
- **Properties of a push** (`ListenerProps`, `listener_props.dfy`): which jobs
  a push yields, the mails and uploads of its trace, and an independent
  replay of the trace against the checkout directory. The directory is
  Absent, Empty or CheckedOut, and the replay checks that every step is legal
  where it happens. A clone that fails leaves the directory Empty, so the
  replay tells whether knife reads a clone.
- **Configuration** (`Config`, `config.dfy`): the repository URL, checkout
  paths and mail addresses of the `configure` block.

The git and knife results (captured output and exit status) are inputs.
`HandlePush` takes a function `env` from the pipeline's position in the push
to its `RunResult`, so the `k`-th pipeline of the push sees `env(k)`.

The `split(",")` suggests the directive was meant to take a comma-separated
list, so that `#chefdeploy:base,common` would deploy two cookbooks. The code
does not do this. Its character class `[\w\-]` has no comma, so the capture
stops at the first comma and `split(",")` always returns a single name. The
model follows the code: `Directive.CommitCookbooks` states that the split is a
no-op, and
`Directive.CommaListYieldsFirstName` shows that this example deploys only
`base`.

## Model

| member | source | states |
|---|---|---|
| Directive.FindDirective | chef-webhook-listener.rb:147 | Returns the leftmost position at or after `from` where `#chefdeploy:` is followed by a name character; None when there is no such position |
| Directive.NameRunLength | chef-webhook-listener.rb:147 | The greedy `[\w\-]+` run: every character in it is a name character, and it ends at the end of the text or at a non-name character |
| Directive.Capture | chef-webhook-listener.rb:147 | The capture group `$1`, when present, is a non-empty string of name characters |
| Directive.MaximalRunIsGreedy | chef-webhook-listener.rb:147 | Any non-empty maximal run of name characters at a position has exactly the greedy scan's length |
| Directive.CaptureNoneIff | chef-webhook-listener.rb:147 | The message fails the `=~` test exactly when no position has the marker followed by a name character |
| Directive.CaptureAtFirstMatch | chef-webhook-listener.rb:147 | At the leftmost match, the capture exists and is the maximal run after the marker |
| Directive.FirstMatchRunIsCapture | chef-webhook-listener.rb:147 | A maximal run after the leftmost match is the capture |
| Directive.CaptureSomeIff | chef-webhook-listener.rb:147 | Both directions: the capture is `name` exactly when `name` is the maximal run after the first qualifying marker |
| Directive.CaptureHasNoComma | chef-webhook-listener.rb:147 | A capture is non-empty and never contains a comma |
| Directive.MatchesAtOnPrefix | chef-webhook-listener.rb:147 | Whether the pattern matches at a position depends only on the text up to the character after the marker |
| Directive.LaterTextIgnored | chef-webhook-listener.rb:147 | Appending anything after a complete directive, including a second directive, leaves the capture unchanged |
| Directive.Fields | chef-webhook-listener.rb:148 | Splitting on "," gives at least one field, and no field contains a comma |
| Directive.JoinFields | chef-webhook-listener.rb:148 | Round trip: joining the fields with "," gives back the original string |
| Directive.FieldsWithoutComma | chef-webhook-listener.rb:148 | A string with no comma is its own single field |
| Directive.DropTrailingEmptyShape | chef-webhook-listener.rb:148 | Dropping trailing empty fields keeps a prefix, removes only empty fields, and leaves no empty field at the end |
| Directive.Split | chef-webhook-listener.rb:148 | `split(",")` gives comma-free fields that form a prefix of all the fields, every field it leaves out is empty, and it never ends in an empty field |
| Directive.SplitWithoutComma | chef-webhook-listener.rb:148 | `split(",")` of a comma-free string is that string alone, or nothing when it is empty |
| Directive.CommitCookbooks | chef-webhook-listener.rb:146-148 | The cookbooks of a message are exactly `[$1]` when it matches and none otherwise, so never more than one |
| Directive.CommaListYieldsFirstName | chef-webhook-listener.rb:146-149 | The message "release #chefdeploy:base,common" deploys only "base" |
| Notify.StatusOf | chef-webhook-listener.rb:66-73 | The status pair holds the command output, and its flag is 1 exactly when the exit status is nonzero and 0 exactly when it is zero; lines 93-100 do the same for git |
| Notify.Compose | chef-webhook-listener.rb:126-130 | The e-mail goes to the committer, with cc and from set to the configured addresses, and its subject and body come from the template the notifier chooses |
| Notify.SubjectKindLetters | chef-webhook-listener.rb:112-118 | The three subjects differ at the character just after the "[CHEFDEPLOY] " tag |
| Notify.TemplatePriority | chef-webhook-listener.rb:111-120 | For `ChooseTemplate`, strict priority, each case in both directions: checkout failure exactly when the git flag is nonzero, whatever knife did; upload failure exactly when git is 0 and knife is nonzero; success exactly when both are 0 |
| Notify.SubjectNamesCookbook | chef-webhook-listener.rb:111-120 | Every subject contains the cookbook name |
| Notify.CheckoutFailureReportsGit | chef-webhook-listener.rb:111-113 | After a failed checkout, the body contains git's output, and the e-mail does not depend on knife's result at all |
| Notify.UploadReportsKnife | chef-webhook-listener.rb:114-120 | After a successful checkout, the body contains knife's output, and git's output does not affect the e-mail |
| Listener.JobsFor | chef-webhook-listener.rb:149-153 | One job per listed name, in order, each for the commit's committer |
| Listener.JobsAppend | chef-webhook-listener.rb:146 | One more commit adds that commit's jobs to the end of the push's job list |
| Listener.CheckoutTrace | chef-webhook-listener.rb:84-100 | The checkout removes a directory exactly when one exists, then creates it and clones into it, and the clone is recorded as successful exactly when git's exit status is 0 |
| Listener.TraceOfPrefix | chef-webhook-listener.rb:149-155 | The events of the first `k` pipelines depend only on the first `k` jobs |
| Listener.TraceConcat | chef-webhook-listener.rb:146-157 | Running two batches of jobs one after the other gives the trace of running them as one batch; only the first pipeline of the push can meet a stale checkout |
| Listener.PushTraceAppend | chef-webhook-listener.rb:146-157 | The trace of a push extends by the pipelines of each further commit's jobs |
| Listener.Deployer.constructor | chef-webhook-listener.rb:144 | A handler starts with the given directory state and an empty trace |
| Listener.Deployer.CheckOutCookbook | chef-webhook-listener.rb:80-105 | Records the checkout's events, with the clone's outcome; returns git's status pair; afterwards the directory exists |
| Listener.Deployer.UploadToChef | chef-webhook-listener.rb:62-78 | Records the upload of the cookbook from the checkout's cookbooks path; returns knife's status pair; the directory state is unchanged |
| Listener.Deployer.NotifyCommitter | chef-webhook-listener.rb:107-135 | Records exactly one delivered e-mail, the composed one, and nothing else |
| Listener.Deployer.Cleanup | chef-webhook-listener.rb:137-142 | Removes the directory if it exists; afterwards it does not |
| Listener.Deployer.Deploy | chef-webhook-listener.rb:151-154 | One pipeline adds exactly that pipeline's events (optional Remove, Mkdir, Clone, Upload, Deliver, Cleanup) and leaves no directory |
| Listener.Deployer.DeployCookbooks | chef-webhook-listener.rb:149-155 | The inner loop adds the pipelines of its jobs in order; the directory remains only if there were none |
| Listener.Deployer.HandlePush | chef-webhook-listener.rb:146-157 | The handler's new trace is the old one followed by the pipelines of all jobs of the push, in commit order; the directory flag stays set only if nothing was deployed |
| ListenerProps.Directed | chef-webhook-listener.rb:146-147 | The selected commits are commits of the push, each passes the regex test, and there are no more of them than commits |
| ListenerProps.JobsForOne | chef-webhook-listener.rb:149 | A single name yields a single job |
| ListenerProps.CommitJobsShape | chef-webhook-listener.rb:146-149 | For `CommitJobs`, a commit yields one job for its committer and its capture when it matches, and none otherwise |
| ListenerProps.JobsFollowDirectives | chef-webhook-listener.rb:146-153 | For `Jobs`, the push has exactly one pipeline per matching commit, in commit order, deploying that commit's capture for its committer |
| ListenerProps.DirectedEmpty | chef-webhook-listener.rb:146-147 | No commit passes the regex test exactly when no message matches |
| ListenerProps.NoDirectiveNoJobs | chef-webhook-listener.rb:146-147 | The push deploys nothing exactly when no message carries a directive |
| ListenerProps.NoDirectiveNoEvents | chef-webhook-listener.rb:146-147 | Both directions: a push produces no checkout, upload, mail or cleanup event exactly when no message carries a directive |
| ListenerProps.JobCookbooksAreNames | chef-webhook-listener.rb:147-152 | Every cookbook passed to the knife command line is a non-empty run of `[A-Za-z0-9_-]` |
| ListenerProps.ProjectConcat | chef-webhook-listener.rb:146-157 | Projecting a trace distributes over concatenation |
| ListenerProps.ProjectOne | chef-webhook-listener.rb:151-154 | The projection of a single event is that event's image |
| ListenerProps.ProjectPipeline | chef-webhook-listener.rb:151-154 | The projection of one pipeline, event by event, in pipeline order |
| ListenerProps.MailsStep | chef-webhook-listener.rb:153 | Each pipeline delivers exactly one e-mail, the one composed from its own results |
| ListenerProps.UploadsStep | chef-webhook-listener.rb:152 | Each pipeline uploads exactly its own cookbook, whatever the clone reported |
| ListenerProps.TraceMails | chef-webhook-listener.rb:149-155 | A run of `k` pipelines delivers exactly `k` e-mails, the `i`-th composed from job `i` and its results |
| ListenerProps.TraceUploads | chef-webhook-listener.rb:149-155 | A run of `k` pipelines uploads exactly the `k` cookbooks in job order; the upload is attempted even when the clone failed |
| ListenerProps.RunMails | chef-webhook-listener.rb:126-130 | Each e-mail of a run goes to its job's committer, with the configured cc and from, and carries the template its two results select |
| ListenerProps.PushMails | chef-webhook-listener.rb:146-153 | One e-mail per matching commit, in commit order, to that commit's committer e-mail, with the configured cc and from, and the template its capture and results select |
| ListenerProps.PushUploads | chef-webhook-listener.rb:146-152 | The uploads of a push are exactly the captures of the matching commits, in commit order, whatever git and knife report |
| ListenerProps.ReplayConcat | chef-webhook-listener.rb:146-157 | Replaying two traces one after the other is replaying their concatenation |
| ListenerProps.PipelineAfterCheckout | chef-webhook-listener.rb:151-154 | A pipeline is the checkout's events followed by the upload of its cookbook, the composed e-mail and the cleanup |
| ListenerProps.UploadReadsCloneIff | chef-webhook-listener.rb:84-100 | The checkout is legal from the directory state its flag describes, and leaves a clone exactly when git's flag is 0 and an empty directory otherwise; the pipeline's next event is the upload, so knife reads a clone exactly then |
| ListenerProps.ReplayPipeline | chef-webhook-listener.rb:84-93 | In a pipeline, a stale checkout is removed before the directory is created, the clone goes into a fresh directory, the upload runs in that directory whether or not the clone worked, and the cleanup leaves no directory |
| ListenerProps.ReplayTrace | chef-webhook-listener.rb:149-155 | Every run of pipelines is legal step by step and ends with no directory unless the run was empty |
| ListenerProps.PushLeavesNoCheckout | chef-webhook-listener.rb:137-142 | After a push that deploys anything, the checkout directory is absent, which agrees with the handler's flag |
| ListenerProps.PipelineShape | chef-webhook-listener.rb:84-87 | For `PipelineTrace`, a pipeline has six events when it meets a stale checkout, which it removes first, and five otherwise; it ends with the cleanup |
| ListenerProps.TraceShape | chef-webhook-listener.rb:149-155 | For `Trace`, `k` pipelines give five events each plus one removal only when the first meets a stale checkout, and a non-empty run ends with the cleanup |
| ListenerProps.PushEndsWithCleanup | chef-webhook-listener.rb:154 | For `PushTrace`, a push has no event exactly when it has no job, and otherwise ends with the cleanup |

## Left out

- The Sinatra routing and the HTTP response (`post '/chefdeploy'`, `return nil`): framework plumbing. The model starts from an already-parsed sequence of commits.
- `JSON.parse` of the payload and the lookup of `message` and `committer.email`: done by a foreign library. Malformed payloads and missing fields are outside the model, and a commit is given as a message and an e-mail.
- Running `git` and `knife` through backticks, and the `which` lookup with `abort` at startup: process I/O. Each command's captured output and `$?.to_i` are inputs, taken from `env`. The raw status value is used as-is, and only its being zero matters.
- `Logger` and every log call: they have no effect on behaviour.
- The SMTP settings and the transport behind `Mail.deliver`: network I/O. Delivery is recorded as a `Deliver(mail)` event, and a failing delivery is not modelled.
- The real filesystem: `FileUtils.rm_rf` and `mkdir_p` are reduced to one boolean in `Deployer`. The replay in `ListenerProps` uses three states. What `git clone` writes, and races between concurrent requests on the shared checkout path, are not modelled.
- The bind address, port, log path and binary paths in the `configure` block: they do not reach the modelled behaviour.
- Ruby's regex engine in general: only the one pattern is modelled, as a scanner over ASCII name characters.
- Listener.Deployer.HandlePush: the commands' results are indexed by the pipeline's position in the push (`env`), not by real time or by the command line.

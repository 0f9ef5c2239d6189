/** What a push does, read off the job list and the event trace of the
    handler: which cookbooks are deployed for whom, the mails and uploads it
    produces, and the life cycle of the shared checkout directory. */
module ListenerProps {
  import opened Config
  import opened Directive
  import opened Notify
  import opened Listener

  // ---- The job list ----

  /** The commits whose message carries a directive, in push order. */
  function Directed(commits: seq<Commit>): (r: seq<Commit>)
    ensures |r| <= |commits|
    ensures forall k :: 0 <= k < |r| ==> r[k] in commits && Capture(r[k].message).Some?
    decreases |commits|
  {
    if commits == [] then []
    else
      var last := commits[|commits| - 1];
      Directed(commits[..|commits| - 1]) + (if Capture(last.message).Some? then [last] else [])
  }

  lemma JobsForOne(committer: string, name: string)
    ensures JobsFor(committer, [name]) == [Job(committer, name)]
  {
  }

  /** A commit yields one job, for its committer and its capture, when its
      message carries a directive, and none otherwise. */
  lemma CommitJobsShape(c: Commit)
    ensures CommitJobs(c) == match Capture(c.message)
                             case None => []
                             case Some(name) => [Job(c.committerEmail, name)]
  {
    if Capture(c.message).Some? {
      JobsForOne(c.committerEmail, Capture(c.message).value);
    }
  }

  /** The push deploys exactly one cookbook per commit with a directive, in
      commit order: the captured name, on behalf of that commit's committer. */
  lemma {:induction false} JobsFollowDirectives(commits: seq<Commit>)
    ensures |Jobs(commits)| == |Directed(commits)|
    ensures forall k :: 0 <= k < |Jobs(commits)| ==>
              Capture(Directed(commits)[k].message).Some? &&
              Jobs(commits)[k] == Job(Directed(commits)[k].committerEmail, Capture(Directed(commits)[k].message).value)
    decreases |commits|
  {
    if commits != [] {
      var init := commits[..|commits| - 1];
      var last := commits[|commits| - 1];
      JobsFollowDirectives(init);
      CommitJobsShape(last);
    }
  }

  lemma {:induction false} DirectedEmpty(commits: seq<Commit>)
    ensures |Directed(commits)| == 0 <==> forall i :: 0 <= i < |commits| ==> Capture(commits[i].message).None?
    decreases |commits|
  {
    if commits != [] {
      var init := commits[..|commits| - 1];
      DirectedEmpty(init);
      assert forall i :: 0 <= i < |init| ==> init[i] == commits[i];
    }
  }

  /** The handler deploys nothing exactly when no commit message carries a
      directive. */
  lemma NoDirectiveNoJobs(commits: seq<Commit>)
    ensures |Jobs(commits)| == 0 <==> forall i :: 0 <= i < |commits| ==> Capture(commits[i].message).None?
  {
    JobsFollowDirectives(commits);
    DirectedEmpty(commits);
  }

  /** Every deployed cookbook name is a non-empty run of name characters, so
      it carries no space, quote or other shell metacharacter into the knife
      command line (a leading '-' is still possible). */
  lemma JobCookbooksAreNames(commits: seq<Commit>)
    ensures forall k :: 0 <= k < |Jobs(commits)| ==>
              |Jobs(commits)[k].cookbook| > 0 && IsName(Jobs(commits)[k].cookbook)
  {
    JobsFollowDirectives(commits);
  }

  // ---- Projections of the trace ----

  /** The events of `events` each mapped by `f`, concatenated. */
  function Project<U>(events: seq<Event>, f: Event -> seq<U>): seq<U>
    decreases |events|
  {
    if events == [] then [] else f(events[0]) + Project(events[1..], f)
  }

  lemma {:induction false} ProjectConcat<U>(a: seq<Event>, b: seq<Event>, f: Event -> seq<U>)
    ensures Project(a + b, f) == Project(a, f) + Project(b, f)
    decreases |a|
  {
    if a == [] {
      assert a + b == b;
    } else {
      var ab := a + b;
      assert ab[0] == a[0] && ab[1..] == a[1..] + b;
      assert Project(ab, f) == f(a[0]) + Project(a[1..] + b, f);
      ProjectConcat(a[1..], b, f);
      assert Project(a, f) == f(a[0]) + Project(a[1..], f);
      assert f(a[0]) + (Project(a[1..], f) + Project(b, f)) == (f(a[0]) + Project(a[1..], f)) + Project(b, f);
    }
  }

  lemma ProjectOne<U>(e: Event, f: Event -> seq<U>)
    ensures Project([e], f) == f(e)
  {
    assert [e][1..] == [];
  }

  /** The projection of one pipeline, event by event. */
  lemma ProjectPipeline<U>(checkoutExists: bool, job: Job, r: RunResult, f: Event -> seq<U>)
    ensures Project(PipelineTrace(checkoutExists, job, r), f) ==
            (if checkoutExists then f(Remove) else []) + f(Mkdir) + f(Clone(REPO_URL, CLONE_DEST, r.cloneExit == 0)) +
            f(Upload(job.cookbook, COOKBOOK_PATH)) +
            f(Deliver(Compose(job.committer, job.cookbook, GitStatus(r), KnifeStatus(r)))) + f(Event.Cleanup)
  {
    var pre: seq<Event> := if checkoutExists then [Remove] else [];
    var e1, e2, e3 := Mkdir, Clone(REPO_URL, CLONE_DEST, r.cloneExit == 0), Upload(job.cookbook, COOKBOOK_PATH);
    var e4, e5 := Deliver(Compose(job.committer, job.cookbook, GitStatus(r), KnifeStatus(r))), Event.Cleanup;
    assert PipelineTrace(checkoutExists, job, r) == pre + [e1] + [e2] + [e3] + [e4] + [e5];
    ProjectConcat(pre + [e1] + [e2] + [e3] + [e4], [e5], f);
    ProjectConcat(pre + [e1] + [e2] + [e3], [e4], f);
    ProjectConcat(pre + [e1] + [e2], [e3], f);
    ProjectConcat(pre + [e1], [e2], f);
    ProjectConcat(pre, [e1], f);
    ProjectOne(e1, f);
    ProjectOne(e2, f);
    ProjectOne(e3, f);
    ProjectOne(e4, f);
    ProjectOne(e5, f);
    if checkoutExists {
      ProjectOne(Remove, f);
    }
  }

  function MailOf(e: Event): seq<Mail> {
    if e.Deliver? then [e.mail] else []
  }

  function UploadOf(e: Event): seq<string> {
    if e.Upload? then [e.cookbook] else []
  }

  /** The mails a trace delivers, in order. */
  function Mails(events: seq<Event>): seq<Mail> {
    Project(events, MailOf)
  }

  /** The cookbooks a trace uploads, in order. */
  function Uploads(events: seq<Event>): seq<string> {
    Project(events, UploadOf)
  }

  lemma MailsStep(checkoutExists: bool, jobs: seq<Job>, k: nat, first: nat, env: nat -> RunResult)
    requires 0 < k <= |jobs|
    ensures Mails(Trace(checkoutExists, jobs, k, first, env)) ==
            Mails(Trace(checkoutExists, jobs, k - 1, first, env)) +
            [Compose(jobs[k - 1].committer, jobs[k - 1].cookbook, GitStatus(env(first + k - 1)), KnifeStatus(env(first + k - 1)))]
  {
    var job := jobs[k - 1];
    var r := env(first + k - 1);
    ProjectConcat(Trace(checkoutExists, jobs, k - 1, first, env), PipelineTrace(checkoutExists && k == 1, job, r), MailOf);
    ProjectPipeline(checkoutExists && k == 1, job, r, MailOf);
  }

  lemma UploadsStep(checkoutExists: bool, jobs: seq<Job>, k: nat, first: nat, env: nat -> RunResult)
    requires 0 < k <= |jobs|
    ensures Uploads(Trace(checkoutExists, jobs, k, first, env)) ==
            Uploads(Trace(checkoutExists, jobs, k - 1, first, env)) + [jobs[k - 1].cookbook]
  {
    var job := jobs[k - 1];
    var r := env(first + k - 1);
    ProjectConcat(Trace(checkoutExists, jobs, k - 1, first, env), PipelineTrace(checkoutExists && k == 1, job, r), UploadOf);
    ProjectPipeline(checkoutExists && k == 1, job, r, UploadOf);
  }

  /** One mail per job, in job order, reporting that job's own command
      results to the job's committer. */
  lemma {:induction false} TraceMails(checkoutExists: bool, jobs: seq<Job>, k: nat, first: nat, env: nat -> RunResult)
    requires k <= |jobs|
    ensures |Mails(Trace(checkoutExists, jobs, k, first, env))| == k
    ensures forall i :: 0 <= i < k ==>
              Mails(Trace(checkoutExists, jobs, k, first, env))[i] ==
              Compose(jobs[i].committer, jobs[i].cookbook, GitStatus(env(first + i)), KnifeStatus(env(first + i)))
    decreases k
  {
    if k > 0 {
      TraceMails(checkoutExists, jobs, k - 1, first, env);
      MailsStep(checkoutExists, jobs, k, first, env);
    }
  }

  /** Every job's cookbook is uploaded, in job order, whatever git and knife
      report: a failed checkout does not stop the upload. */
  lemma {:induction false} TraceUploads(checkoutExists: bool, jobs: seq<Job>, k: nat, first: nat, env: nat -> RunResult)
    requires k <= |jobs|
    ensures |Uploads(Trace(checkoutExists, jobs, k, first, env))| == k
    ensures forall i :: 0 <= i < k ==> Uploads(Trace(checkoutExists, jobs, k, first, env))[i] == jobs[i].cookbook
    decreases k
  {
    if k > 0 {
      TraceUploads(checkoutExists, jobs, k - 1, first, env);
      UploadsStep(checkoutExists, jobs, k, first, env);
    }
  }

  /** The addressing and the template of each mail of a run. */
  lemma RunMails(checkoutExists: bool, jobs: seq<Job>, env: nat -> RunResult)
    ensures |Mails(PushTrace(checkoutExists, jobs, env))| == |jobs|
    ensures forall i :: 0 <= i < |jobs| ==>
              var m := Mails(PushTrace(checkoutExists, jobs, env))[i];
              m.to == jobs[i].committer && m.cc == MAIL_CC && m.from == MAIL_FROM &&
              Template(m.subject, m.body) == ChooseTemplate(jobs[i].cookbook, GitStatus(env(i)), KnifeStatus(env(i)))
  {
    var mails := Mails(PushTrace(checkoutExists, jobs, env));
    TraceMails(checkoutExists, jobs, |jobs|, 0, env);
    forall i | 0 <= i < |jobs|
      ensures mails[i].to == jobs[i].committer && mails[i].cc == MAIL_CC && mails[i].from == MAIL_FROM
      ensures Template(mails[i].subject, mails[i].body) == ChooseTemplate(jobs[i].cookbook, GitStatus(env(i)), KnifeStatus(env(i)))
    {
      assert mails[i] == Compose(jobs[i].committer, jobs[i].cookbook, GitStatus(env(0 + i)), KnifeStatus(env(0 + i)));
    }
  }

  /** For a whole push: one e-mail per commit with a directive, in commit
      order, to that commit's committer, copied to the fixed cc address and
      sent from the fixed sender, with the template that the captured name and
      the pipeline's two command results select. */
  lemma PushMails(checkoutExists: bool, commits: seq<Commit>, env: nat -> RunResult)
    ensures |Mails(PushTrace(checkoutExists, Jobs(commits), env))| == |Directed(commits)|
    ensures forall i :: 0 <= i < |Directed(commits)| ==>
              var c := Directed(commits)[i];
              var m := Mails(PushTrace(checkoutExists, Jobs(commits), env))[i];
              Capture(c.message).Some? &&
              m.to == c.committerEmail && m.cc == MAIL_CC && m.from == MAIL_FROM &&
              Template(m.subject, m.body) == ChooseTemplate(Capture(c.message).value, GitStatus(env(i)), KnifeStatus(env(i)))
  {
    JobsFollowDirectives(commits);
    RunMails(checkoutExists, Jobs(commits), env);
  }

  /** For a whole push: the uploads are exactly the captured names of the
      commits with a directive, in commit order, whatever the commands report. */
  lemma PushUploads(checkoutExists: bool, commits: seq<Commit>, env: nat -> RunResult)
    ensures |Uploads(PushTrace(checkoutExists, Jobs(commits), env))| == |Directed(commits)|
    ensures forall i :: 0 <= i < |Directed(commits)| ==>
              Capture(Directed(commits)[i].message).Some? &&
              Uploads(PushTrace(checkoutExists, Jobs(commits), env))[i] == Capture(Directed(commits)[i].message).value
  {
    JobsFollowDirectives(commits);
    TraceUploads(checkoutExists, Jobs(commits), |Jobs(commits)|, 0, env);
  }

  // ---- The checkout directory ----

  /** The shared checkout directory: missing, freshly created, or holding a
      clone. */
  datatype Dir = Absent | Empty | CheckedOut

  /** The directory after one event, or None when the event cannot be carried
      out there: removal and cleanup need a directory, it is created only where
      none is, and git clones only into a fresh one, which then holds a clone
      only if git succeeded. Knife runs against the directory whether or not it
      holds a clone, and neither it nor the mail changes the directory. */
  function Step(d: Dir, e: Event): Option<Dir> {
    match e
    case Remove => if d != Absent then Some(Absent) else None
    case Mkdir => if d == Absent then Some(Empty) else None
    case Clone(_, _, ok) => if d == Empty then Some(if ok then CheckedOut else Empty) else None
    case Upload(_, _) => if d != Absent then Some(d) else None
    case Deliver(_) => Some(d)
    case Cleanup => if d != Absent then Some(Absent) else None
  }

  /** Carries out `events` from `d`, failing at the first event that cannot
      be carried out. */
  function Replay(d: Dir, events: seq<Event>): Option<Dir>
    decreases |events|
  {
    if events == [] then Some(d)
    else match Step(d, events[0])
      case None => None
      case Some(d') => Replay(d', events[1..])
  }

  lemma {:induction false} ReplayConcat(d: Dir, a: seq<Event>, b: seq<Event>)
    ensures Replay(d, a + b) == match Replay(d, a) case None => None case Some(d') => Replay(d', b)
    decreases |a|
  {
    if a == [] {
      assert a + b == b;
    } else {
      var ab := a + b;
      assert ab[0] == a[0] && ab[1..] == a[1..] + b;
      match Step(d, a[0])
      case None =>
      case Some(d') => ReplayConcat(d', a[1..], b);
    }
  }

  /** The directory the `checkoutExists` flag stands for. */
  function DirOf(checkoutExists: bool): Dir {
    if checkoutExists then CheckedOut else Absent
  }

  /** A pipeline is its checkout followed by the upload, the mail and the
      cleanup. */
  lemma PipelineAfterCheckout(checkoutExists: bool, job: Job, r: RunResult)
    ensures PipelineTrace(checkoutExists, job, r) ==
            CheckoutTrace(checkoutExists, r.cloneExit) +
            [Upload(job.cookbook, COOKBOOK_PATH),
             Deliver(Compose(job.committer, job.cookbook, GitStatus(r), KnifeStatus(r))), Event.Cleanup]
  {
  }

  /** The checkout can be carried out from the state its flag describes, and
      it leaves a clone exactly when git's flag is 0; otherwise the directory
      is there but empty. The pipeline's next event is the upload, so knife
      reads a clone exactly when git's flag is 0. */
  lemma {:induction false} UploadReadsCloneIff(checkoutExists: bool, job: Job, r: RunResult)
    ensures Replay(DirOf(checkoutExists), CheckoutTrace(checkoutExists, r.cloneExit)) ==
            Some(if GitStatus(r).flag == 0 then CheckedOut else Empty)
    ensures PipelineTrace(checkoutExists, job, r)[..|CheckoutTrace(checkoutExists, r.cloneExit)|] ==
            CheckoutTrace(checkoutExists, r.cloneExit)
    ensures PipelineTrace(checkoutExists, job, r)[|CheckoutTrace(checkoutExists, r.cloneExit)|] ==
            Upload(job.cookbook, COOKBOOK_PATH)
  {
    PipelineAfterCheckout(checkoutExists, job, r);
    var pre: seq<Event> := if checkoutExists then [Remove] else [];
    var tail := [Mkdir, Clone(REPO_URL, CLONE_DEST, r.cloneExit == 0)];
    assert CheckoutTrace(checkoutExists, r.cloneExit) == pre + tail;
    ReplayConcat(DirOf(checkoutExists), pre, tail);
    assert Replay(DirOf(checkoutExists), pre) == Some(Absent) by {
      if checkoutExists {
        assert [Remove][1..] == [];
      }
    }
    assert Replay(Absent, tail) == Replay(Empty, tail[1..]);
    var d := if r.cloneExit == 0 then CheckedOut else Empty;
    assert Replay(Empty, tail[1..]) == Replay(d, tail[2..]);
    assert tail[2..] == [];
  }

  /** One pipeline can be carried out from the state its flag describes and
      leaves no directory behind, whether or not the clone worked. */
  lemma {:induction false} ReplayPipeline(checkoutExists: bool, job: Job, r: RunResult)
    ensures Replay(DirOf(checkoutExists), PipelineTrace(checkoutExists, job, r)) == Some(Absent)
  {
    var checkout := CheckoutTrace(checkoutExists, r.cloneExit);
    var tail := [Upload(job.cookbook, COOKBOOK_PATH),
                 Deliver(Compose(job.committer, job.cookbook, GitStatus(r), KnifeStatus(r))), Event.Cleanup];
    PipelineAfterCheckout(checkoutExists, job, r);
    ReplayConcat(DirOf(checkoutExists), checkout, tail);
    UploadReadsCloneIff(checkoutExists, job, r);
    var d := if GitStatus(r).flag == 0 then CheckedOut else Empty;
    assert Replay(d, tail) == Replay(d, tail[1..]);
    assert Replay(d, tail[1..]) == Replay(d, tail[2..]);
    assert Replay(d, tail[2..]) == Replay(Absent, tail[3..]);
  }

  /** Every pipeline of a run is carried out in a legal order: a stale
      checkout is removed before the directory is recreated, the clone goes
      into a fresh directory, the upload runs in that directory, and after
      any pipeline the directory is gone. */
  lemma {:induction false} ReplayTrace(checkoutExists: bool, jobs: seq<Job>, k: nat, first: nat, env: nat -> RunResult)
    requires k <= |jobs|
    ensures Replay(DirOf(checkoutExists), Trace(checkoutExists, jobs, k, first, env)) ==
            Some(DirOf(checkoutExists && k == 0))
    decreases k
  {
    if k > 0 {
      ReplayTrace(checkoutExists, jobs, k - 1, first, env);
      var job := jobs[k - 1];
      var r := env(first + k - 1);
      ReplayConcat(DirOf(checkoutExists), Trace(checkoutExists, jobs, k - 1, first, env),
                   PipelineTrace(checkoutExists && k == 1, job, r));
      ReplayPipeline(checkoutExists && k == 1, job, r);
    }
  }

  /** The handler leaves the directory in the state its flag reports: a push
      that deploys anything ends with no checkout on disk. */
  lemma PushLeavesNoCheckout(checkoutExists: bool, commits: seq<Commit>, env: nat -> RunResult)
    ensures Replay(DirOf(checkoutExists), PushTrace(checkoutExists, Jobs(commits), env)) ==
            Some(DirOf(checkoutExists && |Jobs(commits)| == 0))
  {
    ReplayTrace(checkoutExists, Jobs(commits), |Jobs(commits)|, 0, env);
  }

  /** A pipeline has five events, six when it meets a stale checkout, which
      it then removes first; its last event is the cleanup. */
  lemma PipelineShape(checkoutExists: bool, job: Job, r: RunResult)
    ensures |PipelineTrace(checkoutExists, job, r)| == if checkoutExists then 6 else 5
    ensures PipelineTrace(checkoutExists, job, r)[0] == Remove <==> checkoutExists
    ensures PipelineTrace(checkoutExists, job, r)[|PipelineTrace(checkoutExists, job, r)| - 1] == Event.Cleanup
  {
  }

  /** A run of `k` pipelines has five events per pipeline, plus one removal
      only when the first pipeline meets a stale checkout, and a non-empty run
      ends with the cleanup. */
  lemma {:induction false} TraceShape(checkoutExists: bool, jobs: seq<Job>, k: nat, first: nat, env: nat -> RunResult)
    requires k <= |jobs|
    ensures |Trace(checkoutExists, jobs, k, first, env)| == 5 * k + (if checkoutExists && k > 0 then 1 else 0)
    ensures k > 0 ==> Trace(checkoutExists, jobs, k, first, env)[|Trace(checkoutExists, jobs, k, first, env)| - 1] == Event.Cleanup
    decreases k
  {
    if k > 0 {
      TraceShape(checkoutExists, jobs, k - 1, first, env);
      PipelineShape(checkoutExists && k == 1, jobs[k - 1], env(first + k - 1));
    }
  }

  /** A push produces no event exactly when it has no job, and otherwise ends
      with the cleanup. */
  lemma PushEndsWithCleanup(checkoutExists: bool, jobs: seq<Job>, env: nat -> RunResult)
    ensures |PushTrace(checkoutExists, jobs, env)| == 0 <==> |jobs| == 0
    ensures |jobs| > 0 ==> PushTrace(checkoutExists, jobs, env)[|PushTrace(checkoutExists, jobs, env)| - 1] == Event.Cleanup
  {
    TraceShape(checkoutExists, jobs, |jobs|, 0, env);
  }

  /** A push none of whose messages carries a directive produces no event at
      all: no checkout, no upload, no mail, no cleanup; and conversely. */
  lemma NoDirectiveNoEvents(checkoutExists: bool, commits: seq<Commit>, env: nat -> RunResult)
    ensures |PushTrace(checkoutExists, Jobs(commits), env)| == 0 <==>
            forall i :: 0 <= i < |commits| ==> Capture(commits[i].message).None?
  {
    NoDirectiveNoJobs(commits);
    PushEndsWithCleanup(checkoutExists, Jobs(commits), env);
  }
}

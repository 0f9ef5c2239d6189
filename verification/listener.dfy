/** The `post '/chefdeploy'` handler and the four steps it runs per cookbook.

    External effects are recorded as events in a trace; the commands' outputs
    and exit statuses are inputs, and the shared checkout directory is a
    single "exists" flag. */
module Listener {
  import opened Config
  import opened Directive
  import opened Notify

  /** A commit of the already-parsed push: its message and committer e-mail. */
  datatype Commit = Commit(message: string, committerEmail: string)

  /** One cookbook to deploy, and who asked for it. */
  datatype Job = Job(committer: string, cookbook: string)

  /** What git and knife report for one pipeline run. */
  datatype RunResult = RunResult(cloneOutput: string, cloneExit: int, knifeOutput: string, knifeExit: int)

  datatype Event =
    | Remove                                      // rm_rf of the stale checkout
    | Mkdir                                       // mkdir_p of the checkout
    | Clone(url: string, dest: string, ok: bool)  // git clone, and whether it exited with status 0
    | Upload(cookbook: string, cookbookPath: string) // knife cookbook upload
    | Deliver(mail: Mail)                         // Mail.deliver
    | Cleanup                                     // rm_rf at the end

  /** The jobs for the names `names`, all asked for by `committer`. */
  function JobsFor(committer: string, names: seq<string>): (jobs: seq<Job>)
    ensures |jobs| == |names|
    ensures forall k :: 0 <= k < |jobs| ==> jobs[k] == Job(committer, names[k])
  {
    if names == [] then [] else [Job(committer, names[0])] + JobsFor(committer, names[1..])
  }

  /** The jobs one commit yields, one per name of its split capture. */
  function CommitJobs(c: Commit): seq<Job>
  {
    JobsFor(c.committerEmail, CommitCookbooks(c.message))
  }

  /** The jobs of a whole push, commit by commit in order. */
  function Jobs(commits: seq<Commit>): seq<Job>
    decreases |commits|
  {
    if commits == [] then []
    else Jobs(commits[..|commits| - 1]) + CommitJobs(commits[|commits| - 1])
  }

  function GitStatus(r: RunResult): Status {
    StatusOf(r.cloneOutput, r.cloneExit)
  }

  function KnifeStatus(r: RunResult): Status {
    StatusOf(r.knifeOutput, r.knifeExit)
  }

  /** The events of the checkout: a stale checkout is removed first, the
      directory is created, and the clone comes last, marked with whether git
      exited with status 0. */
  function CheckoutTrace(checkoutExists: bool, cloneExit: int): (r: seq<Event>)
    ensures |r| >= 2 && (r[0] == Remove <==> checkoutExists) && r[|r| - 2] == Mkdir
    ensures r[|r| - 1].Clone? && (r[|r| - 1].ok <==> cloneExit == 0)
  {
    (if checkoutExists then [Remove] else []) + [Mkdir, Clone(REPO_URL, CLONE_DEST, cloneExit == 0)]
  }

  /** The events of one pipeline: check out (removing a stale checkout
      first), upload whatever the clone did, notify, clean up. */
  function PipelineTrace(checkoutExists: bool, job: Job, r: RunResult): seq<Event>
  {
    (if checkoutExists then [Remove] else []) +
    [Mkdir, Clone(REPO_URL, CLONE_DEST, r.cloneExit == 0), Upload(job.cookbook, COOKBOOK_PATH),
     Deliver(Compose(job.committer, job.cookbook, GitStatus(r), KnifeStatus(r))), Cleanup]
  }

  /** The events of the first `k` jobs of a run; the `i`-th job sees the
      command results `env(first + i)`, and only the first job of the run can
      find a checkout left from before. */
  function Trace(checkoutExists: bool, jobs: seq<Job>, k: nat, first: nat, env: nat -> RunResult): seq<Event>
    requires k <= |jobs|
    decreases k
  {
    if k == 0 then []
    else Trace(checkoutExists, jobs, k - 1, first, env) +
         PipelineTrace(checkoutExists && k == 1, jobs[k - 1], env(first + k - 1))
  }

  /** The events of a whole push whose jobs are `jobs`. */
  function PushTrace(checkoutExists: bool, jobs: seq<Job>, env: nat -> RunResult): seq<Event>
  {
    Trace(checkoutExists, jobs, |jobs|, 0, env)
  }

  lemma JobsAppend(commits: seq<Commit>, i: nat)
    requires i < |commits|
    ensures Jobs(commits[..i + 1]) == Jobs(commits[..i]) + CommitJobs(commits[i])
  {
    assert commits[..i + 1][..i] == commits[..i];
  }

  /** The first `k` events depend only on the first `k` jobs. */
  lemma {:induction false} TraceOfPrefix(checkoutExists: bool, a: seq<Job>, b: seq<Job>, k: nat, first: nat,
                                         env: nat -> RunResult)
    requires k <= |a|
    ensures Trace(checkoutExists, a + b, k, first, env) == Trace(checkoutExists, a, k, first, env)
    decreases k
  {
    if k > 0 {
      TraceOfPrefix(checkoutExists, a, b, k - 1, first, env);
      assert (a + b)[k - 1] == a[k - 1];
    }
  }

  /** Running two batches of jobs one after the other gives the trace of
      running them as one batch. */
  lemma {:induction false} TraceConcat(checkoutExists: bool, a: seq<Job>, b: seq<Job>, k: nat, first: nat,
                                       env: nat -> RunResult)
    requires k <= |b|
    ensures Trace(checkoutExists, a + b, |a| + k, first, env) ==
            Trace(checkoutExists, a, |a|, first, env) + Trace(checkoutExists && |a| == 0, b, k, first + |a|, env)
    decreases k
  {
    if k == 0 {
      TraceOfPrefix(checkoutExists, a, b, |a|, first, env);
    } else {
      TraceConcat(checkoutExists, a, b, k - 1, first, env);
      assert (a + b)[|a| + k - 1] == b[k - 1];
      ConcatAssoc(Trace(checkoutExists, a, |a|, first, env),
                  Trace(checkoutExists && |a| == 0, b, k - 1, first + |a|, env),
                  PipelineTrace(checkoutExists && |a| == 0 && k == 1, b[k - 1], env(first + |a| + k - 1)));
    }
  }

  /** The whole-push form of TraceConcat. */
  lemma PushTraceAppend(checkoutExists: bool, done: seq<Job>, more: seq<Job>, env: nat -> RunResult)
    ensures PushTrace(checkoutExists, done + more, env) ==
            PushTrace(checkoutExists, done, env) + Trace(checkoutExists && |done| == 0, more, |more|, |done|, env)
  {
    TraceConcat(checkoutExists, done, more, |more|, 0, env);
  }

  lemma ConcatAssoc<T>(a: seq<T>, b: seq<T>, c: seq<T>)
    ensures (a + b) + c == a + (b + c)
  {
  }

  class Deployer {
    /** Whether the shared checkout directory is present. */
    var checkoutExists: bool
    /** Every external effect so far, in order. */
    var trace: seq<Event>

    constructor (checkoutExists: bool)
      ensures this.checkoutExists == checkoutExists && trace == []
    {
      this.checkoutExists := checkoutExists;
      trace := [];
    }

    /** Removes a stale checkout, recreates the directory and clones into it. */
    method CheckOutCookbook(cookbook: string, cloneOutput: string, cloneExit: int) returns (git: Status)
      modifies this
      ensures git == StatusOf(cloneOutput, cloneExit)
      ensures checkoutExists
      ensures trace == old(trace) + CheckoutTrace(old(checkoutExists), cloneExit)
    {
      if checkoutExists {
        checkoutExists := false;
        trace := trace + [Remove];
      }
      checkoutExists := true;
      trace := trace + [Mkdir];
      trace := trace + [Clone(REPO_URL, CLONE_DEST, cloneExit == 0)];
      var flag := 0;
      if cloneExit != 0 {
        flag := 1;
      }
      git := Status(cloneOutput, flag);
    }

    /** Runs the upload; it touches neither the directory flag nor anything else. */
    method UploadToChef(cookbook: string, knifeOutput: string, knifeExit: int) returns (knife: Status)
      modifies this
      ensures knife == StatusOf(knifeOutput, knifeExit)
      ensures checkoutExists == old(checkoutExists)
      ensures trace == old(trace) + [Upload(cookbook, COOKBOOK_PATH)]
    {
      trace := trace + [Upload(cookbook, COOKBOOK_PATH)];
      var flag := 0;
      if knifeExit != 0 {
        flag := 1;
      }
      knife := Status(knifeOutput, flag);
    }

    /** Sends the report to the committer, cc and from the configured addresses. */
    method NotifyCommitter(committer: string, cookbook: string, git: Status, knife: Status)
      modifies this
      ensures checkoutExists == old(checkoutExists)
      ensures trace == old(trace) + [Deliver(Compose(committer, cookbook, git, knife))]
    {
      var t := ChooseTemplate(cookbook, git, knife);
      trace := trace + [Deliver(Mail(committer, MAIL_CC, MAIL_FROM, t.subject, t.body))];
    }

    /** Deletes the checkout if it is there; afterwards it is not. */
    method Cleanup()
      modifies this
      ensures !checkoutExists
      ensures trace == old(trace) + (if old(checkoutExists) then [Event.Cleanup] else [])
    {
      if checkoutExists {
        trace := trace + [Event.Cleanup];
        checkoutExists := false;
      }
    }

    /** The body of the inner loop: the four steps for one cookbook. */
    method Deploy(job: Job, r: RunResult)
      modifies this
      ensures !checkoutExists
      ensures trace == old(trace) + PipelineTrace(old(checkoutExists), job, r)
    {
      var git := CheckOutCookbook(job.cookbook, r.cloneOutput, r.cloneExit);
      var knife := UploadToChef(job.cookbook, r.knifeOutput, r.knifeExit);
      NotifyCommitter(job.committer, job.cookbook, git, knife);
      Cleanup();
    }

    /** The inner loop: the pipelines for the jobs of one directive, the
        `i`-th of them seeing the command results `env(first + i)`. */
    method DeployCookbooks(jobs: seq<Job>, first: nat, env: nat -> RunResult) returns (next: nat)
      modifies this
      ensures next == first + |jobs|
      ensures checkoutExists == (old(checkoutExists) && |jobs| == 0)
      ensures trace == old(trace) + Trace(old(checkoutExists), jobs, |jobs|, first, env)
    {
      next := first;
      for j := 0 to |jobs|
        invariant next == first + j
        invariant checkoutExists == (old(checkoutExists) && j == 0)
        invariant trace == old(trace) + Trace(old(checkoutExists), jobs, j, first, env)
      {
        Deploy(jobs[j], env(next));
        ConcatAssoc(old(trace), Trace(old(checkoutExists), jobs, j, first, env),
                    PipelineTrace(old(checkoutExists) && j == 0, jobs[j], env(first + j)));
        next := next + 1;
      }
    }

    /** The handler: every commit, every cookbook its directive names, in
        order; the `k`-th pipeline of the push sees the command results `env(k)`. */
    method HandlePush(commits: seq<Commit>, env: nat -> RunResult)
      modifies this
      ensures checkoutExists == (old(checkoutExists) && |Jobs(commits)| == 0)
      ensures trace == old(trace) + PushTrace(old(checkoutExists), Jobs(commits), env)
    {
      ghost var done: seq<Job> := [];
      var n: nat := 0;
      for i := 0 to |commits|
        invariant done == Jobs(commits[..i])
        invariant n == |done|
        invariant checkoutExists == (old(checkoutExists) && |done| == 0)
        invariant trace == old(trace) + PushTrace(old(checkoutExists), done, env)
      {
        var commit := commits[i];
        JobsAppend(commits, i);
        // the regex test, then `$1.split(",")`
        match Capture(commit.message)
        case None =>
          assert CommitJobs(commit) == [];
          assert done + [] == done;
        case Some(capture) =>
          var more := JobsFor(commit.committerEmail, Split(capture));
          assert more == CommitJobs(commit);
          ghost var step := Trace(old(checkoutExists) && |done| == 0, more, |more|, |done|, env);
          n := DeployCookbooks(more, n, env);
          assert trace == old(trace) + PushTrace(old(checkoutExists), done, env) + step;
          PushTraceAppend(old(checkoutExists), done, more, env);
          ConcatAssoc(old(trace), PushTrace(old(checkoutExists), done, env), step);
          done := done + more;
      }
      assert commits[..|commits|] == commits;
    }
  }
}

/** Status pairs of the external commands and the notification e-mail.

    Each command's result is the two-element array `[output, flag]`, here a
    record whose `output` is index 0 and whose `flag` is index 1. The
    notifier picks one of three templates in strict priority order. */
module Notify {
  import opened Config

  datatype Status = Status(output: string, flag: int)

  /** The pair built after a command ran: its captured output, and 1 when
      the (raw) exit status is nonzero, else 0. */
  function StatusOf(output: string, exitStatus: int): (s: Status)
    ensures s.output == output
    ensures s.flag == 1 <==> exitStatus != 0
    ensures s.flag == 0 <==> exitStatus == 0
  {
    Status(output, if exitStatus != 0 then 1 else 0)
  }

  datatype Template = Template(subject: string, body: string)

  const SUBJECT_TAG: string := "[CHEFDEPLOY] "

  const GIT_FAILED_HEAD: string := "Git checkout of "
  const KNIFE_FAILED_HEAD: string := "Knife upload of "
  const DEPLOYED_HEAD: string := "Chef Deploy of "
  const FAILED_TAIL: string := " failed, could not deploy."
  const SUCCESS_TAIL: string := " was a success."
  const GIT_OUTPUT_INTRO: string := " failed.\n\n, Git command output:\n\n "
  const KNIFE_OUTPUT_INTRO: string := " failed.\n\n, Knife command output:\n\n "
  const DEPLOYED_INTRO: string := "Well done!\n\n Knife command output:\n\n "

  function CheckoutFailedSubject(cookbook: string): string {
    SUBJECT_TAG + GIT_FAILED_HEAD + cookbook + FAILED_TAIL
  }

  function UploadFailedSubject(cookbook: string): string {
    SUBJECT_TAG + KNIFE_FAILED_HEAD + cookbook + FAILED_TAIL
  }

  function DeployedSubject(cookbook: string): string {
    SUBJECT_TAG + DEPLOYED_HEAD + cookbook + SUCCESS_TAIL
  }

  function CheckoutFailedBody(cookbook: string, gitOutput: string): string {
    GIT_FAILED_HEAD + cookbook + " from " + REPO_URL + GIT_OUTPUT_INTRO + gitOutput + "."
  }

  function UploadFailedBody(cookbook: string, knifeOutput: string): string {
    KNIFE_FAILED_HEAD + cookbook + KNIFE_OUTPUT_INTRO + knifeOutput + "."
  }

  function DeployedBody(knifeOutput: string): string {
    DEPLOYED_INTRO + knifeOutput + "."
  }

  /** The `if/elsif/else` of the notifier: checkout failure first, then
      upload failure, then success (TemplatePriority). */
  function ChooseTemplate(cookbook: string, git: Status, knife: Status): Template
  {
    if git.flag != 0 then
      Template(CheckoutFailedSubject(cookbook), CheckoutFailedBody(cookbook, git.output))
    else if knife.flag != 0 then
      Template(UploadFailedSubject(cookbook), UploadFailedBody(cookbook, knife.output))
    else
      Template(DeployedSubject(cookbook), DeployedBody(knife.output))
  }

  datatype Mail = Mail(to: string, cc: string, from: string, subject: string, body: string)

  /** The e-mail the notifier hands to the mail transport. */
  function Compose(committer: string, cookbook: string, git: Status, knife: Status): (m: Mail)
    ensures m.to == committer && m.cc == MAIL_CC && m.from == MAIL_FROM
    ensures Template(m.subject, m.body) == ChooseTemplate(cookbook, git, knife)
  {
    var t := ChooseTemplate(cookbook, git, knife);
    Mail(committer, MAIL_CC, MAIL_FROM, t.subject, t.body)
  }

  ghost predicate Contains(s: string, part: string) {
    exists i :: 0 <= i <= |s| && part <= s[i..]
  }

  lemma ContainsMiddle(a: string, b: string, c: string)
    ensures Contains(a + b + c, b)
  {
    assert b <= (a + b + c)[|a|..];
  }

  /** Character 13 of a subject, just after the tag, tells the templates apart. */
  lemma SubjectKindLetters(cookbook: string)
    ensures |CheckoutFailedSubject(cookbook)| > 13 && CheckoutFailedSubject(cookbook)[13] == 'G'
    ensures |UploadFailedSubject(cookbook)| > 13 && UploadFailedSubject(cookbook)[13] == 'K'
    ensures |DeployedSubject(cookbook)| > 13 && DeployedSubject(cookbook)[13] == 'C'
  {
    assert |SUBJECT_TAG| == 13;
    assert (SUBJECT_TAG + "Git checkout of ")[13] == 'G';
    assert (SUBJECT_TAG + "Knife upload of ")[13] == 'K';
    assert (SUBJECT_TAG + "Chef Deploy of ")[13] == 'C';
  }

  /** Strict priority, each case in both directions: the subject is the
      checkout-failure one exactly when git failed (whatever knife did), the
      upload-failure one exactly when git succeeded and knife failed, and the
      success one exactly when both succeeded. */
  lemma TemplatePriority(cookbook: string, git: Status, knife: Status)
    ensures ChooseTemplate(cookbook, git, knife).subject == CheckoutFailedSubject(cookbook)
            <==> git.flag != 0
    ensures ChooseTemplate(cookbook, git, knife).subject == UploadFailedSubject(cookbook)
            <==> git.flag == 0 && knife.flag != 0
    ensures ChooseTemplate(cookbook, git, knife).subject == DeployedSubject(cookbook)
            <==> git.flag == 0 && knife.flag == 0
  {
    SubjectKindLetters(cookbook);
  }

  /** Every subject names the cookbook. */
  lemma SubjectNamesCookbook(cookbook: string, git: Status, knife: Status)
    ensures Contains(ChooseTemplate(cookbook, git, knife).subject, cookbook)
  {
    if git.flag != 0 {
      ContainsMiddle(SUBJECT_TAG + "Git checkout of ", cookbook, " failed, could not deploy.");
    } else if knife.flag != 0 {
      ContainsMiddle(SUBJECT_TAG + "Knife upload of ", cookbook, " failed, could not deploy.");
    } else {
      ContainsMiddle(SUBJECT_TAG + "Chef Deploy of ", cookbook, " was a success.");
    }
  }

  /** A failed checkout is reported with git's output, and nothing knife
      said or did changes the e-mail. */
  lemma CheckoutFailureReportsGit(cookbook: string, git: Status, knife: Status, otherKnife: Status)
    requires git.flag != 0
    ensures Contains(ChooseTemplate(cookbook, git, knife).body, git.output)
    ensures ChooseTemplate(cookbook, git, knife) == ChooseTemplate(cookbook, git, otherKnife)
  {
    ContainsMiddle("Git checkout of " + cookbook + " from " + REPO_URL + " failed.\n\n, Git command output:\n\n ",
                   git.output, ".");
  }

  /** Once the checkout succeeded, the e-mail reports knife's output, and
      git's output does not affect it. */
  lemma UploadReportsKnife(cookbook: string, git: Status, knife: Status, otherGitOutput: string)
    requires git.flag == 0
    ensures Contains(ChooseTemplate(cookbook, git, knife).body, knife.output)
    ensures ChooseTemplate(cookbook, git, knife) == ChooseTemplate(cookbook, Status(otherGitOutput, 0), knife)
  {
    if knife.flag != 0 {
      ContainsMiddle("Knife upload of " + cookbook + " failed.\n\n, Knife command output:\n\n ", knife.output, ".");
    } else {
      ContainsMiddle("Well done!\n\n Knife command output:\n\n ", knife.output, ".");
    }
  }
}

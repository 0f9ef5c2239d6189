/** Static configuration of the listener (the `configure` block and the
    mail addresses). Only the values that reach the modelled behaviour are
    kept: the bind address, port, log path and SMTP settings do not. */
module Config {
  const REPO: string := "chef-repo"
  const REPO_URL: string := "git@github.com:YOURREPO/" + REPO + ".git"
  /** The single, shared checkout directory. */
  const TARGET: string := "/var/tmp/checkout/"
  /** Where `git clone` puts the repository. */
  const CLONE_DEST: string := TARGET + REPO
  /** The `-o` argument of `knife cookbook upload`. */
  const COOKBOOK_PATH: string := TARGET + REPO + "/cookbooks"
  const MAIL_FROM: string := "Chef Deploy Status <alerts@example.com>"
  const MAIL_CC: string := "automation@example.com"
}

/**
 * The pieces the two `derive_actions` variants of the seed scripts share:
 * the backticked commands of a step, the file path a step edits, the canned
 * Debian command lines, and the keyword rules that append them unless an
 * action already mentions the same tool.
 *
 * Regular expressions are modelled by what they match: `\b(w1|w2)\b` as
 * word membership (`HasAnyWord`), `` `([^`]+)` `` and the two path patterns
 * as scanning functions that return the leftmost match.
 */
module ActionRules {
  import opened Base
  import opened Text

  // ---------------------------------------------------------------------------
  // Backticked commands

  /**
   * `re.findall(r"`([^`]+)`", s)`: scanning left to right, the text between a
   * backtick and the next one. Two adjacent backticks enclose nothing, so the
   * second one may open the next span.
   */
  function Backticked(s: string): (r: seq<string>)
    ensures forall c :: c in r ==> c != [] && '`' !in c
    decreases |s|
  {
    if '`' !in s then []
    else
      var rest := s[FirstIndex(s, '`') + 1..];
      if '`' !in rest then []
      else
        var j := FirstIndex(rest, '`');
        if j == 0 then Backticked(rest)
        else [rest[..j]] + Backticked(rest[j + 1..])
  }

  predicate NonEmpty(x: string)
  {
    x != []
  }

  /** `[c.strip() for c in re.findall(...) if c.strip()][:3]`: the first three non-blank commands, stripped. */
  function Commands(s: string): (r: seq<string>)
    ensures |r| <= 3
    ensures forall c :: c in r ==> c != [] && Strip(c) == c
  {
    var stripped := StripAll(Backticked(s));
    StripAllStripped(Backticked(s));
    var cmds := Filter(NonEmpty, stripped);
    var r := if |cmds| <= 3 then cmds else cmds[..3];
    assert forall c :: c in r ==> c in cmds;
    r
  }

  /** Every line of `[x.strip() for x in xs]` is its own strip. */
  lemma StripAllStripped(xs: seq<string>)
    ensures forall c :: c in StripAll(xs) ==> Strip(c) == c
  {
    forall c | c in StripAll(xs) ensures Strip(c) == c {
      var k :| 0 <= k < |xs| && StripAll(xs)[k] == c;
      StripIdempotent(xs[k]);
    }
  }

  // ---------------------------------------------------------------------------
  // File paths

  /** The end of the run of non-whitespace characters that starts at `i`. */
  function NonSpaceEnd(s: string, i: nat): (e: nat)
    requires i <= |s|
    ensures i <= e <= |s|
    ensures forall k :: i <= k < e ==> !IsSpace(s[k])
    ensures e == |s| || IsSpace(s[e])
    decreases |s| - i
  {
    if i == |s| || IsSpace(s[i]) then i else NonSpaceEnd(s, i + 1)
  }

  /** The end of the run of whitespace characters that starts at `i`. */
  function SpaceEnd(s: string, i: nat): (e: nat)
    requires i <= |s|
    ensures i <= e <= |s|
    ensures forall k :: i <= k < e ==> IsSpace(s[k])
    ensures e == |s| || !IsSpace(s[e])
    decreases |s| - i
  {
    if i == |s| || !IsSpace(s[i]) then i else SpaceEnd(s, i + 1)
  }

  /** `edit` or `open` in any letter case, at a word boundary. */
  predicate EditVerbAt(s: string, p: nat)
  {
    p + 4 <= |s| && (p == 0 || !IsWordChar(s[p - 1]))
    && (Lower(s[p..p + 4]) == "edit" || Lower(s[p..p + 4]) == "open")
  }

  /**
   * The match of `\b(edit|open)\s+(/[^\s]+)` (ignoring case) at `p`, if any:
   * group 2, a slash followed by at least one non-whitespace character.
   */
  function EditPathAt(s: string, p: nat): (r: Option<string>)
    ensures r.Some? ==> EditVerbAt(s, p) && |r.value| >= 2 && r.value[0] == '/'
    ensures r.Some? ==> forall k :: 0 <= k < |r.value| ==> !IsSpace(r.value[k])
  {
    if !EditVerbAt(s, p) then None
    else
      var q := SpaceEnd(s, p + 4);
      if q == p + 4 || q == |s| || s[q] != '/' then None
      else
        var e := NonSpaceEnd(s, q + 1);
        if e == q + 1 then None else Some(s[q..e])
  }

  /** `q` is the leftmost position at or after `p` where the edit pattern matches, giving `r`. */
  predicate LeftmostEditAt(s: string, p: nat, q: nat, r: Option<string>)
  {
    p <= q < |s| && EditPathAt(s, q) == r
    && forall q' :: p <= q' < q ==> EditPathAt(s, q').None?
  }

  /** `re.search(...)` for the edit pattern from position `p` on: the leftmost match. */
  function EditPathFrom(s: string, p: nat): (r: Option<string>)
    ensures r.Some? ==> exists q :: LeftmostEditAt(s, p, q, r)
    ensures r.None? ==> forall q :: p <= q < |s| ==> EditPathAt(s, q).None?
    decreases |s| - p
  {
    if p >= |s| then None
    else
      var here := EditPathAt(s, p);
      if here.Some? then
        assert LeftmostEditAt(s, p, p, here);
        here
      else
        var r := EditPathFrom(s, p + 1);
        assert r.Some? ==> exists q :: LeftmostEditAt(s, p, q, r) by {
          if r.Some? {
            var q :| LeftmostEditAt(s, p + 1, q, r);
            LeftmostEditShift(s, p, q, r);
          }
        }
        r
  }

  lemma LeftmostEditShift(s: string, p: nat, q: nat, r: Option<string>)
    requires EditPathAt(s, p).None? && LeftmostEditAt(s, p + 1, q, r)
    ensures LeftmostEditAt(s, p, q, r)
  {
  }

  function EditPath(s: string): Option<string>
  {
    EditPathFrom(s, 0)
  }

  /** The directories `_FILE_PATH_RE` recognises. */
  const SystemDirs: seq<string> := ["/etc/", "/var/", "/usr/", "/opt/", "/home/"]

  /**
   * The match of `(/etc/[^\s]+|/var/[^\s]+|...)` at `p`: one of the
   * directory prefixes followed by at least one more non-whitespace
   * character, extended to the end of the non-whitespace run.
   */
  function SystemPathAt(s: string, p: nat): (r: Option<string>)
    requires p <= |s|
    ensures r.Some? ==> exists k :: 0 <= k < |SystemDirs| && StartsWith(r.value, SystemDirs[k]) && |r.value| > |SystemDirs[k]|
  {
    var e := NonSpaceEnd(s, p);
    if exists k :: 0 <= k < |SystemDirs| && StartsWith(s[p..e], SystemDirs[k]) && e - p > |SystemDirs[k]|
    then Some(s[p..e])
    else None
  }

  /** `q` is the leftmost position at or after `p` where `_FILE_PATH_RE` matches, giving `r`. */
  predicate LeftmostSystemAt(s: string, p: nat, q: nat, r: Option<string>)
  {
    p <= q <= |s| && SystemPathAt(s, q) == r
    && forall q' :: p <= q' < q ==> SystemPathAt(s, q').None?
  }

  /** `_FILE_PATH_RE.search(s)`: the leftmost match from position `p` on. */
  function SystemPathFrom(s: string, p: nat): (r: Option<string>)
    requires p <= |s|
    ensures r.Some? ==> exists q :: LeftmostSystemAt(s, p, q, r)
    ensures r.None? ==> forall q :: p <= q <= |s| ==> SystemPathAt(s, q).None?
    decreases |s| - p
  {
    var here := SystemPathAt(s, p);
    if here.Some? then
      assert LeftmostSystemAt(s, p, p, here);
      here
    else if p == |s| then None
    else
      var r := SystemPathFrom(s, p + 1);
      assert r.Some? ==> exists q :: LeftmostSystemAt(s, p, q, r) by {
        if r.Some? {
          var q :| LeftmostSystemAt(s, p + 1, q, r);
          LeftmostSystemShift(s, p, q, r);
        }
      }
      r
  }

  lemma LeftmostSystemShift(s: string, p: nat, q: nat, r: Option<string>)
    requires p < |s| && SystemPathAt(s, p).None? && LeftmostSystemAt(s, p + 1, q, r)
    ensures LeftmostSystemAt(s, p, q, r)
  {
  }

  function SystemPath(s: string): Option<string>
  {
    SystemPathFrom(s, 0)
  }

  /** `f"sudo nano {path}  # or your editor of choice"` */
  function EditorLine(path: string): string
  {
    "sudo nano " + path + "  # or your editor of choice"
  }

  // ---------------------------------------------------------------------------
  // Canned command lines

  /** The tool names the rules test for; the canned lines are built around them. */
  const Systemctl: string := "systemctl"
  const AptGet: string := "apt-get"

  datatype Canned =
    | RestartService | ServiceStatus
    | EnableNow | EnabledAndActive
    | DisableNow | EnabledOrTrue
    | AptUpdate | AptInstall | DpkgCheck
    | AptUpgrade
    | AddUser | UserExists
    | AddToGroup | ShowUser
    | Journal
    | BackupFstab | EditFstab | MountAll | VerifyMounts

  function Line(c: Canned): string
  {
    match c
    case RestartService => "sudo " + Systemctl + " restart <service>"
    case ServiceStatus => "sudo " + Systemctl + " status <service> --no-pager"
    case EnableNow => "sudo " + Systemctl + " enable --now <service>"
    case EnabledAndActive => "systemctl is-enabled <service> && systemctl is-active <service>"
    case DisableNow => "sudo " + Systemctl + " disable --now <service>"
    case EnabledOrTrue => "systemctl is-enabled <service> || true"
    case AptUpdate => "sudo " + AptGet + " update"
    case AptInstall => "sudo " + AptGet + " install -y <package>"
    case DpkgCheck => "dpkg -l | grep -i <package> || true"
    case AptUpgrade => "sudo " + AptGet + " upgrade -y"
    case AddUser => "sudo adduser <username>"
    case UserExists => "id <username> || getent passwd <username>"
    case AddToGroup => "sudo usermod -aG <group> <username>"
    case ShowUser => "id <username>"
    case Journal => "sudo journalctl -u <service> -n 200 --no-pager"
    case BackupFstab => "sudo cp -a /etc/fstab /etc/fstab.bak"
    case EditFstab => "sudo nano /etc/fstab"
    case MountAll => "sudo mount -a"
    case VerifyMounts => "findmnt --verify || true"
  }

  function Lines(cs: seq<Canned>): (r: seq<string>)
    ensures |r| == |cs|
    ensures forall i :: 0 <= i < |cs| ==> r[i] == Line(cs[i])
  {
    seq(|cs|, i requires 0 <= i < |cs| => Line(cs[i]))
  }

  const RestartGroup: seq<Canned> := [RestartService, ServiceStatus]
  const EnableGroup: seq<Canned> := [EnableNow, EnabledAndActive]
  const DisableGroup: seq<Canned> := [DisableNow, EnabledOrTrue]
  const InstallGroup: seq<Canned> := [AptUpdate, AptInstall, DpkgCheck]
  const UpgradeGroup: seq<Canned> := [AptUpdate, AptUpgrade]

  // ---------------------------------------------------------------------------
  // The keyword rules

  /** `any(word in a for a in actions)` */
  predicate Mentions(actions: seq<string>, word: string)
  {
    exists i :: 0 <= i < |actions| && Contains(actions[i], word)
  }

  /** One rule: `if fires and not any(guard in a for a in actions): actions += lines`. */
  function AddUnless(actions: seq<string>, fires: bool, guard: string, group: seq<Canned>): (r: seq<string>)
    ensures r == actions || r == actions + Lines(group)
    ensures r == actions + Lines(group) <== fires && !Mentions(actions, guard)
    ensures Mentions(actions, guard) || !fires ==> r == actions
  {
    if fires && !Mentions(actions, guard) then actions + Lines(group) else actions
  }

  /** The restart, enable and disable rules, in that order, each guarded by `systemctl`. */
  function ServiceRules(low: string, actions: seq<string>): seq<string>
  {
    var a1 := AddUnless(actions, HasAnyWord(low, ["restart", "reload"]), Systemctl, RestartGroup);
    var a2 := AddUnless(a1, HasWord(low, "enable"), Systemctl, EnableGroup);
    AddUnless(a2, HasWord(low, "disable"), Systemctl, DisableGroup)
  }

  /** The install and update rules, in that order, each guarded by `apt-get`. */
  function PackageRules(low: string, actions: seq<string>): seq<string>
  {
    var a1 := AddUnless(actions, HasWord(low, "install"), AptGet, InstallGroup);
    AddUnless(a1, HasAnyWord(low, ["update", "upgrade"]), AptGet, UpgradeGroup)
  }

  lemma MentionsAppend(a: seq<string>, b: seq<string>, word: string)
    requires Mentions(b, word)
    ensures Mentions(a + b, word)
  {
    var i :| 0 <= i < |b| && Contains(b[i], word);
    assert (a + b)[|a| + i] == b[i];
  }

  /** A string occurs in any concatenation that has it in the middle. */
  lemma OccursInMiddle(a: string, b: string, c: string)
    ensures OccursAt(a + b + c, b, |a|)
  {
    assert (a + b + c)[|a|..|a| + |b|] == b;
  }

  /** Each service group's first line runs systemctl. */
  lemma ServiceGroupsMentionSystemctl()
    ensures Mentions(Lines(RestartGroup), Systemctl)
    ensures Mentions(Lines(EnableGroup), Systemctl)
    ensures Mentions(Lines(DisableGroup), Systemctl)
  {
    OccursInMiddle("sudo ", Systemctl, " restart <service>");
    OccursInMiddle("sudo ", Systemctl, " enable --now <service>");
    OccursInMiddle("sudo ", Systemctl, " disable --now <service>");
    assert Lines(RestartGroup)[0] == Line(RestartService);
    assert Lines(EnableGroup)[0] == Line(EnableNow);
    assert Lines(DisableGroup)[0] == Line(DisableNow);
  }

  /** Each package group's first line runs apt-get. */
  lemma PackageGroupsMentionAptGet()
    ensures Mentions(Lines(InstallGroup), AptGet)
    ensures Mentions(Lines(UpgradeGroup), AptGet)
  {
    OccursInMiddle("sudo ", AptGet, " update");
    assert Lines(InstallGroup)[0] == Line(AptUpdate);
    assert Lines(UpgradeGroup)[0] == Line(AptUpdate);
  }

  /**
   * The service rules add at most one of their three groups: none when an
   * action already mentions systemctl, else the first whose keyword occurs
   * (restart/reload before enable before disable), since every group's
   * lines themselves mention systemctl.
   */
  lemma ServiceRulesAddOneGroup(low: string, actions: seq<string>)
    ensures Mentions(actions, Systemctl) ==> ServiceRules(low, actions) == actions
    ensures !Mentions(actions, Systemctl) ==>
      ServiceRules(low, actions) ==
        if HasAnyWord(low, ["restart", "reload"]) then actions + Lines(RestartGroup)
        else if HasWord(low, "enable") then actions + Lines(EnableGroup)
        else if HasWord(low, "disable") then actions + Lines(DisableGroup)
        else actions
  {
    ServiceGroupsMentionSystemctl();
    MentionsAppend(actions, Lines(RestartGroup), Systemctl);
    MentionsAppend(actions, Lines(EnableGroup), Systemctl);
  }

  /**
   * The package rules add at most one of their two groups: none when an
   * action already mentions apt-get, else the install group when the step
   * says install, else the upgrade group when it says update or upgrade.
   */
  lemma PackageRulesAddOneGroup(low: string, actions: seq<string>)
    ensures Mentions(actions, AptGet) ==> PackageRules(low, actions) == actions
    ensures !Mentions(actions, AptGet) ==>
      PackageRules(low, actions) ==
        if HasWord(low, "install") then actions + Lines(InstallGroup)
        else if HasAnyWord(low, ["update", "upgrade"]) then actions + Lines(UpgradeGroup)
        else actions
  {
    PackageGroupsMentionAptGet();
    MentionsAppend(actions, Lines(InstallGroup), AptGet);
  }
}

/** The agents as objects over a shared, mutable file system: ManagerFiles (the backup path
    setup and `file_backup`), the managers ManagerSnort and the legacy ManagerSnort mixed
    into it (`append_rule`), and main.py's FileAgent. Each method changes the file system
    step by step as the source does and is proved to leave exactly the outcome the matching
    function of `Store` describes. */
module Agents {
  import opened Text
  import opened Py
  import opened Store
  import Rules
  import Requests
  import Indicators

  /** The disk as an object whose files and directories the operations change in place. */
  class FileSystem {
    var files: map<Path, string>
    var dirs: set<Path>

    function State(): Disk
      reads this
    {
      Disk(files, dirs)
    }

    constructor (d: Disk)
      ensures State() == d
    {
      files := d.files;
      dirs := d.dirs;
    }

    /** `open(p, "r").readlines()`. */
    method ReadLines(p: Path) returns (r: Result<seq<string>>)
      ensures r.Ok? <==> ReadFile(State(), p).Ok?
      ensures r.Ok? ==> r.value == Lines(ReadFile(State(), p).value)
      ensures r.Err? ==> r.error == ReadFile(State(), p).error
    {
      if p in files {
        r := Ok(Lines(Universal(files[p])));
      } else {
        r := Err(ReadFile(State(), p).error);
      }
    }

    /** `open(p, "w").write(text)`, or `writelines` of lines that make up `text`. */
    method Write(p: Path, text: string) returns (raised: Option<Error>)
      modifies this
      ensures Outcome(State(), raised) == WriteFile(old(State()), p, text)
    {
      raised := OpenError(State(), p);
      if raised == None {
        files := files[p := text];
      }
    }

    /** `open(p, "a").write(text)`. */
    method Append(p: Path, text: string) returns (raised: Option<Error>)
      modifies this
      ensures Outcome(State(), raised) == AppendFile(old(State()), p, text)
    {
      raised := OpenError(State(), p);
      if raised == None {
        files := files[p := Contents(State(), p) + text];
      }
    }

    /** `p.mkdir(parents=True, exist_ok=True)`. */
    method MakeDirs(p: Path) returns (raised: Option<Error>)
      modifies this
      ensures Outcome(State(), raised) == Store.MakeDirs(old(State()), p)
    {
      if p in dirs {
        raised := None;
      } else if p in files {
        raised := Some(FileExistsError);
      } else if FileOnPath(State(), p) {
        raised := Some(NotADirectoryError);
      } else {
        raised := None;
        dirs := dirs + Prefixes(p);
      }
    }
  }

  /** ManagerFiles: the backup directory `directory/backup`, created when absent, and the
      rules file `directory/file`. `initRaised` is what the constructor raised, if it did. */
  class ManagerFiles {
    const fs: FileSystem
    const paths: Paths
    const initRaised: Option<Error>

    constructor (fs: FileSystem, directory: Path, file: string)
      modifies fs
      ensures this.fs == fs && paths == Paths(directory, file)
      ensures paths.RulesFile() == directory + [file] && paths.BackupDir() == directory + ["backup"]
      ensures Outcome(fs.State(), initRaised) == EnsureBackupDir(old(fs.State()), Paths(directory, file))
    {
      var backup := directory + ["backup"];
      var raised := None;
      if !(backup in fs.dirs || backup in fs.files) {
        raised := fs.MakeDirs(backup);
      }
      this.fs := fs;
      paths := Paths(directory, file);
      initRaised := raised;
    }

    /** `file_backup`: read the lines of the rules file, write them to the time-stamped file. */
    method FileBackup(now: Time) returns (raised: Option<Error>)
      modifies fs
      ensures Outcome(fs.State(), raised) == Backup(old(fs.State()), paths, now)
    {
      var target := paths.BackupDir() + [BackupName(paths.file, now)];
      var rules := fs.ReadLines(paths.RulesFile());
      if rules.Err? {
        return Some(rules.error);
      }
      raised := fs.Write(target, Concat(rules.value));
    }
  }

  /** The managers ManagerSnort mixed into ManagerFiles. */
  class ManagerSnort {
    const files: ManagerFiles

    constructor (files: ManagerFiles)
      ensures this.files == files
    {
      this.files := files;
    }

    /** `append_rule(data)`: translate the payload; store nothing for None or a rule the file
        holds; otherwise back up and append the rule on a line of its own. */
    method AppendRule(data: map<string, Value>, now: Time) returns (raised: Option<Error>)
      modifies files.fs
      ensures Outcome(files.fs.State(), raised) ==
                AppendTranslated(old(files.fs.State()), files.paths, now, Rules.RuleTranslator(data), false)
      ensures Valid(old(files.fs.State())) ==> Valid(files.fs.State())
    {
      ghost var before := files.fs.State();
      if Valid(before) {
        AppendValid(before, files.paths, now, Rules.RuleTranslator(data), false);
      }
      var translation := Rules.RuleTranslator(data);
      if translation.Err? {
        return Some(translation.error);
      }
      if translation.value.None? {
        return None;
      }
      var rule := Str(translation.value.value);
      var present := RuleExists(files.fs.State(), files.paths, rule);
      if present.Err? {
        return Some(present.error);
      }
      if present.value {
        return None;
      }
      raised := files.FileBackup(now);
      if raised.Some? {
        return;
      }
      raised := files.fs.Append(files.paths.RulesFile(), "\n" + ToStr(rule) + "\n");
    }
  }

  /** The legacy ManagerSnort mixed into ManagerFiles, whose `file_backup` it calls. */
  class LegacyManagerSnort {
    const files: ManagerFiles

    constructor (files: ManagerFiles)
      ensures this.files == files
    {
      this.files := files;
    }

    /** `append_rule(data)` as written: `rule := rule_translator(data) is None` makes `rule` a
        bool, and `rule_exists(False)` runs on it. `decoded` is what `json.loads` makes of a
        JSON body. */
    method AppendRule(data: map<string, Value>, decoded: Decoded, now: Time) returns (raised: Option<Error>)
      modifies files.fs
      ensures Outcome(files.fs.State(), raised) ==
                LegacyAppend(old(files.fs.State()), files.paths, now, Requests.LegacyTranslate(data, decoded))
      ensures Valid(old(files.fs.State())) ==> Valid(files.fs.State())
    {
      ghost var before := files.fs.State();
      if Valid(before) {
        AppendValid(before, files.paths, now, Requests.LegacyTranslate(data, decoded), false);
      }
      var translation := Requests.LegacyTranslate(data, decoded);
      if translation.Err? {
        return Some(translation.error);
      }
      var rule := Bool(translation.value.None?);
      if Truthy(rule) {
        return None;
      }
      var present := RuleExists(files.fs.State(), files.paths, rule);
      if present.Err? {
        return Some(present.error);
      }
      if present.value {
        return None;
      }
      raised := files.FileBackup(now);
      if raised.Some? {
        return;
      }
      raised := files.fs.Append(files.paths.RulesFile(), "\n" + ToStr(rule) + "\n");
    }
  }

  /** main.py's FileAgent: the rules file and the backup directory live in
      `snort/volumes/custom` under the repository root `root`. */
  class FileAgent {
    const fs: FileSystem
    const paths: Paths

    constructor (fs: FileSystem, root: Path, file: string)
      ensures this.fs == fs
      ensures paths.RulesFile() == root + ["snort", "volumes", "custom", file]
      ensures paths.BackupDir() == root + ["snort", "volumes", "custom", "backup"]
    {
      this.fs := fs;
      paths := Paths(root + ["snort", "volumes", "custom"], file);
    }

    /** `file_backup`: make the backup directory, then copy the lines of the rules file. */
    method FileBackup(now: Time) returns (raised: Option<Error>)
      modifies fs
      ensures Outcome(fs.State(), raised) == BackupMakingDir(old(fs.State()), paths, now)
    {
      raised := fs.MakeDirs(paths.BackupDir());
      if raised.Some? {
        return;
      }
      var target := paths.BackupDir() + [BackupName(paths.file, now)];
      var rules := fs.ReadLines(paths.RulesFile());
      if rules.Err? {
        return Some(rules.error);
      }
      raised := fs.Write(target, Concat(rules.value));
    }

    /** `append_rule(data)`: as the managers version, with main.py's translator and backup.
        `decoded` is what `json.loads` makes of a JSON body. */
    method AppendRule(data: map<string, Value>, decoded: Decoded, now: Time) returns (raised: Option<Error>)
      modifies fs
      ensures Outcome(fs.State(), raised) ==
                AppendTranslated(old(fs.State()), paths, now, Requests.MainTranslate(data, decoded), true)
      ensures Valid(old(fs.State())) ==> Valid(fs.State())
    {
      ghost var before := fs.State();
      if Valid(before) {
        AppendValid(before, paths, now, Requests.MainTranslate(data, decoded), true);
      }
      var translation := Requests.MainTranslate(data, decoded);
      if translation.Err? {
        return Some(translation.error);
      }
      if translation.value.None? {
        return None;
      }
      var rule := Str(translation.value.value);
      var present := RuleExists(fs.State(), paths, rule);
      if present.Err? {
        return Some(present.error);
      }
      if present.value {
        return None;
      }
      raised := FileBackup(now);
      if raised.Some? {
        return;
      }
      raised := fs.Append(paths.RulesFile(), "\n" + ToStr(rule) + "\n");
    }
  }

  /** With the parentheses of the managers version, `(rule := rule_translator(data)) is None`,
      the legacy agent would store the alert for the address a text body names: after a
      successful append the rules file holds it. */
  lemma LegacyFixedStoresAlert(d: Disk, ps: Paths, t: Time, data: map<string, Value>, decoded: Decoded, c: string)
    requires Valid(d)
    requires Get(data, "content_type") == Str("text/plain") && Get(data, "content") == Str(c)
    requires Indicators.Extract(c).Some? && NoBreak(Requests.AlertLine(Indicators.Extract(c).value))
    requires AppendTranslated(d, ps, t, Requests.LegacyTranslateFixed(data, decoded), false).raised == None
    ensures var o := AppendTranslated(d, ps, t, Requests.LegacyTranslateFixed(data, decoded), false);
            RuleExists(o.disk, ps, Str(Requests.AlertLine(Indicators.Extract(c).value))) == Ok(true)
  {
    var rule := Requests.AlertLine(Indicators.Extract(c).value);
    assert Requests.LegacyTranslateFixed(data, decoded) == Ok(Some(rule));
    AddRulePresent(d, ps, t, rule, false);
  }

  /** The managers `append_rule` of a `block_ip` payload whose target holds a line break
      appends the rule whatever the rules file already holds, the same rule included. */
  lemma LineBreakRuleDuplicates(d: Disk, ps: Paths, t: Time, data: map<string, Value>, target: string, j: nat)
    requires Valid(d) && ps.RulesFile() in d.files
    requires ps.BackupDir() in d.dirs && BackupTarget(ps, t) !in d.dirs
    requires Get(data, "command") == Str("block_ip") && Get(data, "target") == Str(target)
    requires j < |target| && (target[j] == '\n' || target[j] == '\r')
    ensures Rules.RuleTranslator(data).Ok? && Rules.RuleTranslator(data).value.Some?
    ensures var o := AppendTranslated(d, ps, t, Rules.RuleTranslator(data), false);
      && o.raised == None && ps.RulesFile() in o.disk.files
      && o.disk.files[ps.RulesFile()] == d.files[ps.RulesFile()] + Entry(Str(Rules.RuleTranslator(data).value.value))
  {
    Rules.LineBreakTarget(data, target, j);
    SpanningRuleAppended(d, ps, t, Rules.RuleTranslator(data).value.value, 11 + j);
  }
}

/** The rules file and its backups: a disk as a map from paths to text plus a set of
    directories, the file operations the agents perform on it (`readlines`, writing,
    appending, `mkdir`), the time-stamped backup, `rule_exists`, and the tail that every
    `append_rule` shares: skip a rule that is present, back up, append. */
module Store {
  import opened Text
  import opened Py

  /** A path as its components: `Path(a, "b")` is `a + ["b"]`, the root is `[]`. */
  type Path = seq<string>

  function Parent(p: Path): Path
  {
    if p == [] then [] else p[..|p| - 1]
  }

  /** A disk: the text of every file and the set of directories. */
  datatype Disk = Disk(files: map<Path, string>, dirs: set<Path>)

  /** The shape of a real directory tree: the root is a directory, everything else sits in a
      directory, and no path is both a file and a directory. */
  predicate Valid(d: Disk)
  {
    && [] in d.dirs
    && (forall p :: p in d.dirs && p != [] ==> Parent(p) in d.dirs)
    && (forall p :: p in d.files ==> p != [] && Parent(p) in d.dirs && p !in d.dirs)
  }

  /** What an operation leaves behind: the disk, and the exception it raised if it raised one.
      Whatever happened before the exception stays on the disk. */
  datatype Outcome = Outcome(disk: Disk, raised: Option<Error>)

  /** Where an agent keeps its files: the rules file `base/file` and the backup directory
      `base/backup`. */
  datatype Paths = Paths(base: Path, file: string)
  {
    function RulesFile(): Path { base + [file] }
    function BackupDir(): Path { base + ["backup"] }
  }

  // ---------------------------------------------------------------------
  // File operations

  /** Some prefix of `p`, `p` itself included, is a file. */
  predicate FileOnPath(d: Disk, p: Path)
  {
    exists k :: 0 <= k <= |p| && p[..k] in d.files
  }

  /** Why `dir` cannot hold a file that is opened, if it cannot. */
  function DirError(d: Disk, dir: Path): Option<Error>
  {
    if dir in d.dirs then None
    else if FileOnPath(d, dir) then Some(NotADirectoryError)
    else Some(FileNotFoundError)
  }

  /** `open(p, "r")` and reading it all: the text with universal newlines. */
  function ReadFile(d: Disk, p: Path): (r: Result<string>)
    ensures r.Ok? <==> p in d.files
    ensures r.Ok? ==> r.value == Universal(d.files[p])
    ensures r.Err? ==> r.error in {FileNotFoundError, IsADirectoryError, NotADirectoryError}
  {
    if p in d.files then Ok(Universal(d.files[p]))
    else if p in d.dirs then Err(IsADirectoryError)
    else if DirError(d, Parent(p)).Some? then Err(DirError(d, Parent(p)).value)
    else Err(FileNotFoundError)
  }

  /** Why `open(p, "w")` or `open(p, "a")` fails, if it does. */
  function OpenError(d: Disk, p: Path): Option<Error>
  {
    if p in d.dirs then Some(IsADirectoryError) else DirError(d, Parent(p))
  }

  function Contents(d: Disk, p: Path): string
  {
    if p in d.files then d.files[p] else ""
  }

  /** `open(p, "w")` and writing `text`: the file is created or truncated. */
  function WriteFile(d: Disk, p: Path, text: string): (o: Outcome)
  {
    match OpenError(d, p)
    case Some(e) => Outcome(d, Some(e))
    case None => Outcome(d.(files := d.files[p := text]), None)
  }

  /** `open(p, "a")` and writing `text`: the file is created if missing and `text` goes at its end. */
  function AppendFile(d: Disk, p: Path, text: string): (o: Outcome)
  {
    match OpenError(d, p)
    case Some(e) => Outcome(d, Some(e))
    case None => Outcome(d.(files := d.files[p := Contents(d, p) + text]), None)
  }

  /** `p` and every directory above it. */
  function Prefixes(p: Path): set<Path>
  {
    set k | 0 <= k <= |p| :: p[..k]
  }

  /** `p.mkdir(parents=True, exist_ok=True)`. */
  function MakeDirs(d: Disk, p: Path): (o: Outcome)
  {
    if p in d.dirs then Outcome(d, None)
    else if p in d.files then Outcome(d, Some(FileExistsError))
    else if FileOnPath(d, p) then Outcome(d, Some(NotADirectoryError))
    else Outcome(d.(dirs := d.dirs + Prefixes(p)), None)
  }

  /** The ManagerFiles constructor's `if not exists(): mkdir(...)` on the backup directory. */
  function EnsureBackupDir(d: Disk, ps: Paths): (o: Outcome)
  {
    var b := ps.BackupDir();
    if b in d.dirs || b in d.files then Outcome(d, None) else MakeDirs(d, b)
  }

  // ---------------------------------------------------------------------
  // Backup names

  /** A reading of the wall clock at second resolution, as `datetime.now()` is formatted. */
  datatype Time = Time(year: nat, month: nat, day: nat, hour: nat, minute: nat, second: nat)

  /** Times whose `%Y` has four digits and whose other fields are in range. */
  predicate ValidTime(t: Time)
  {
    && 1000 <= t.year <= 9999 && 1 <= t.month <= 12 && 1 <= t.day <= 31
    && t.hour < 24 && t.minute < 60 && t.second < 60
  }

  function Two(n: nat): (s: string)
    ensures |s| == 2
  {
    Padded(n, 2, 10)
  }

  /** A separator followed by a two-digit field and the rest of a stamp. */
  function Sep(c: char, n: nat, rest: string): string
  {
    [c] + (Two(n) + rest)
  }

  /** `strftime('%Y-%m-%d_%H-%M-%S')`. */
  function Stamp(t: Time): (s: string)
    ensures |s| == 19
  {
    Padded(t.year, 4, 10) +
      Sep('-', t.month, Sep('-', t.day, Sep('_', t.hour, Sep('-', t.minute, Sep('-', t.second, "")))))
  }

  /** `s.rfind(c)`: the last index of `c` in `s`, or -1. */
  function LastIndex(s: string, c: char): (i: int)
    ensures -1 <= i < |s|
    ensures i >= 0 ==> s[i] == c
    ensures forall k :: i < k < |s| ==> s[k] != c
  {
    if s == [] then -1
    else if s[|s| - 1] == c then |s| - 1
    else LastIndex(s[..|s| - 1], c)
  }

  /** `Path(name).stem`: the name without its last suffix; a leading or trailing dot starts no suffix. */
  function Stem(name: string): string
  {
    var i := LastIndex(name, '.');
    if 0 < i < |name| - 1 then name[..i] else name
  }

  /** The name the backup of the rules file `file` gets at time `t`. */
  function BackupName(file: string, t: Time): string
  {
    Stem(file) + ("-" + (Stamp(t) + ".bak"))
  }

  function BackupTarget(ps: Paths, t: Time): Path
  {
    ps.BackupDir() + [BackupName(ps.file, t)]
  }

  // ---------------------------------------------------------------------
  // Backing up, looking up, appending

  /** `file_backup` of ManagerFiles: read the lines of the rules file and write them to the
      time-stamped file in the backup directory. */
  function Backup(d: Disk, ps: Paths, t: Time): (o: Outcome)
  {
    match ReadFile(d, ps.RulesFile())
    case Err(e) => Outcome(d, Some(e))
    case Ok(text) => WriteFile(d, BackupTarget(ps, t), Concat(Lines(text)))
  }

  /** `file_backup` of main.py: the same after making the backup directory. */
  function BackupMakingDir(d: Disk, ps: Paths, t: Time): (o: Outcome)
  {
    var m := MakeDirs(d, ps.BackupDir());
    if m.raised.Some? then m else Backup(m.disk, ps, t)
  }

  /** `rule_exists(rule)`: some line of the rules file contains `rule`. With a `rule` that is
      not a string, `rule in line` raises TypeError at the first line, if there is one. */
  function RuleExists(d: Disk, ps: Paths, rule: Value): (r: Result<bool>)
  {
    match ReadFile(d, ps.RulesFile())
    case Err(e) => Err(e)
    case Ok(text) =>
      if rule.Str? then Ok(AnyContains(Lines(text), rule.s))
      else if Lines(text) == [] then Ok(false)
      else Err(TypeError)
  }

  /** What every `append_rule` does with its rule: nothing if the rules file has it already,
      otherwise a backup and then `f"\n{rule}\n"` appended to the rules file. */
  function AddRule(d: Disk, ps: Paths, t: Time, rule: Value, makeDir: bool): (o: Outcome)
  {
    match RuleExists(d, ps, rule)
    case Err(e) => Outcome(d, Some(e))
    case Ok(present) =>
      if present then Outcome(d, None)
      else
        var b := if makeDir then BackupMakingDir(d, ps, t) else Backup(d, ps, t);
        if b.raised.Some? then b else AppendFile(b.disk, ps.RulesFile(), Entry(rule))
  }

  /** The text appended for a rule: `f"\n{rule}\n"`. */
  function Entry(rule: Value): string
  {
    "\n" + ToStr(rule) + "\n"
  }

  /** `append_rule` of the managers ManagerSnort (`makeDir` false) and of main.py (`makeDir`
      true), given what `rule_translator` made of the payload: None stores nothing. */
  function AppendTranslated(d: Disk, ps: Paths, t: Time, translation: Result<Option<string>>, makeDir: bool): (o: Outcome)
  {
    match translation
    case Err(e) => Outcome(d, Some(e))
    case Ok(None) => Outcome(d, None)
    case Ok(Some(rule)) => AddRule(d, ps, t, Str(rule), makeDir)
  }

  /** `append_rule` of the legacy ManagerSnort: `rule := translation is None` binds a bool, so
      a translated rule goes on as `False`. */
  function LegacyAppend(d: Disk, ps: Paths, t: Time, translation: Result<Option<string>>): (o: Outcome)
  {
    match translation
    case Err(e) => Outcome(d, Some(e))
    case Ok(None) => Outcome(d, None)
    case Ok(Some(_)) => AddRule(d, ps, t, Bool(false), false)
  }

  // ---------------------------------------------------------------------
  // The file operations keep a tree a tree

  /** A file that opens for writing sits in an existing directory and is no directory itself. */
  lemma OpenOk(d: Disk, p: Path)
    requires Valid(d) && OpenError(d, p) == None
    ensures p != [] && Parent(p) in d.dirs && p !in d.dirs
  {
  }

  lemma WriteValid(d: Disk, p: Path, text: string)
    requires Valid(d)
    ensures Valid(WriteFile(d, p, text).disk)
  {
    if OpenError(d, p) == None {
      OpenOk(d, p);
    }
  }

  /** Appending to an existing file cannot fail, and adds the text at its end. */
  lemma AppendExisting(d: Disk, p: Path, text: string)
    requires Valid(d) && p in d.files
    ensures AppendFile(d, p, text) == Outcome(d.(files := d.files[p := d.files[p] + text]), None)
    ensures Valid(AppendFile(d, p, text).disk)
  {
  }

  /** `mkdir(parents=True, exist_ok=True)` touches no file, keeps the tree a tree, and on
      success leaves `p` a directory; doing it again changes nothing. */
  lemma {:induction false} MakeDirsValid(d: Disk, p: Path)
    requires Valid(d)
    ensures var o := MakeDirs(d, p);
      && Valid(o.disk) && o.disk.files == d.files && d.dirs <= o.disk.dirs
      && (o.raised == None ==> p in o.disk.dirs)
      && (o.raised != None ==> o.disk == d)
  {
    var o := MakeDirs(d, p);
    if p !in d.dirs && p !in d.files && !FileOnPath(d, p) {
      var nd := o.disk.dirs;
      assert p[..|p|] == p;
      forall q | q in nd && q != []
        ensures Parent(q) in nd
      {
        if q in Prefixes(p) {
          var k :| 0 <= k <= |p| && q == p[..k];
          assert Parent(q) == p[..k - 1];
        }
      }
    }
  }

  lemma MakeDirsIdempotent(d: Disk, p: Path)
    requires MakeDirs(d, p).raised == None
    ensures MakeDirs(MakeDirs(d, p).disk, p) == MakeDirs(d, p)
  {
    assert p[..|p|] == p;
  }

  /** The ManagerFiles constructor leaves the files alone and, unless it raises, leaves something
      at the backup path; when something is there already it changes nothing. */
  lemma EnsureBackupDirEffect(d: Disk, ps: Paths)
    requires Valid(d)
    ensures var o, b := EnsureBackupDir(d, ps), ps.BackupDir();
      && Valid(o.disk) && o.disk.files == d.files
      && (o.raised == None ==> b in o.disk.dirs || b in o.disk.files)
      && (b in d.dirs || b in d.files ==> o == Outcome(d, None))
      && (o.raised != None ==> o.disk == d)
  {
    MakeDirsValid(d, ps.BackupDir());
  }

  lemma EnsureBackupDirIdempotent(d: Disk, ps: Paths)
    requires Valid(d) && EnsureBackupDir(d, ps).raised == None
    ensures EnsureBackupDir(EnsureBackupDir(d, ps).disk, ps) == EnsureBackupDir(d, ps)
  {
    EnsureBackupDirEffect(d, ps);
  }

  // ---------------------------------------------------------------------
  // Backup names

  lemma PaddedInjective(m: nat, n: nat, w: nat)
    requires m < Pow(10, w) && n < Pow(10, w) && Padded(m, w, 10) == Padded(n, w, 10)
    ensures m == n
  {
    PaddedValue(m, w, 10);
    PaddedValue(n, w, 10);
  }

  lemma SepCancel(c: char, m: nat, r1: string, n: nat, r2: string)
    requires m < 100 && n < 100 && Sep(c, m, r1) == Sep(c, n, r2)
    ensures m == n && r1 == r2
  {
    ConcatCancel([c], Two(m) + r1, [c], Two(n) + r2);
    ConcatCancel(Two(m), r1, Two(n), r2);
    assert Pow(10, 2) == 100 by {
      assert Pow(10, 1) == 10 by { assert Pow(10, 0) == 1; }
    }
    PaddedInjective(m, n, 2);
  }

  /** Two valid times with the same stamp are the same second. */
  lemma StampInjective(t1: Time, t2: Time)
    requires ValidTime(t1) && ValidTime(t2) && Stamp(t1) == Stamp(t2)
    ensures t1 == t2
  {
    var s5 := Sep('-', t1.second, "");
    var s4 := Sep('-', t1.minute, s5);
    var s3 := Sep('_', t1.hour, s4);
    var s2 := Sep('-', t1.day, s3);
    var s1 := Sep('-', t1.month, s2);
    var u5 := Sep('-', t2.second, "");
    var u4 := Sep('-', t2.minute, u5);
    var u3 := Sep('_', t2.hour, u4);
    var u2 := Sep('-', t2.day, u3);
    var u1 := Sep('-', t2.month, u2);
    ConcatCancel(Padded(t1.year, 4, 10), s1, Padded(t2.year, 4, 10), u1);
    assert Pow(10, 4) == 10000 by {
      assert Pow(10, 2) == 100 by {
        assert Pow(10, 1) == 10 by { assert Pow(10, 0) == 1; }
      }
      assert Pow(10, 3) == 1000;
    }
    PaddedInjective(t1.year, t2.year, 4);
    SepCancel('-', t1.month, s2, t2.month, u2);
    SepCancel('-', t1.day, s3, t2.day, u3);
    SepCancel('_', t1.hour, s4, t2.hour, u4);
    SepCancel('-', t1.minute, s5, t2.minute, u5);
    SepCancel('-', t1.second, "", t2.second, "");
  }

  /** Backups of one rules file taken in the same second get the same name, and only those:
      a second backup within a second replaces the first. */
  lemma BackupNameInjective(file: string, t1: Time, t2: Time)
    requires ValidTime(t1) && ValidTime(t2)
    ensures BackupName(file, t1) == BackupName(file, t2) <==> t1 == t2
  {
    if BackupName(file, t1) == BackupName(file, t2) {
      ConcatCancel(Stem(file), "-" + (Stamp(t1) + ".bak"), Stem(file), "-" + (Stamp(t2) + ".bak"));
      ConcatCancel("-", Stamp(t1) + ".bak", "-", Stamp(t2) + ".bak");
      ConcatCancel(Stamp(t1), ".bak", Stamp(t2), ".bak");
      StampInjective(t1, t2);
    }
  }

  /** The stem drops the last suffix, dots before it included in the stem. */
  lemma StemDropsSuffix(n: string, ext: string)
    requires n != "" && ext != "" && '.' !in ext
    ensures Stem(n + "." + ext) == n
  {
    var s := n + "." + ext;
    var i := LastIndex(s, '.');
    assert s[|n|] == '.';
    assert s[..|n|] == n;
  }

  /** A name without a dot is its own stem. */
  lemma StemNoDot(name: string)
    requires '.' !in name
    ensures Stem(name) == name
  {
  }

  // ---------------------------------------------------------------------
  // Backups

  lemma BackupTargetShape(ps: Paths, t: Time)
    ensures BackupTarget(ps, t) != ps.RulesFile()
    ensures Parent(BackupTarget(ps, t)) == ps.BackupDir()
  {
    assert |BackupTarget(ps, t)| != |ps.RulesFile()|;
    assert BackupTarget(ps, t)[..|BackupTarget(ps, t)| - 1] == ps.BackupDir();
  }

  /** `file_backup` fails exactly when the rules file cannot be read or the backup cannot be
      written; otherwise it adds one file holding what reading the rules file gives, and
      nothing else changes. A missing rules file raises FileNotFoundError unless something
      else is in its way: IsADirectoryError for a directory of that name, NotADirectoryError
      for a file on the path above it. */
  lemma BackupEffect(d: Disk, ps: Paths, t: Time)
    requires Valid(d)
    ensures var o, r, b := Backup(d, ps, t), ps.RulesFile(), BackupTarget(ps, t);
      && Valid(o.disk) && o.disk.dirs == d.dirs
      && (o.raised == None <==> r in d.files && OpenError(d, b) == None)
      && (o.raised == None ==> o.disk.files == d.files[b := Universal(d.files[r])])
      && (o.raised != None ==> o.disk == d)
      && (r !in d.files && r !in d.dirs && (Parent(r) in d.dirs || !FileOnPath(d, Parent(r)))
          ==> o.raised == Some(FileNotFoundError))
      && (r in d.dirs ==> o.raised == Some(IsADirectoryError))
      && (r !in d.dirs && Parent(r) !in d.dirs && FileOnPath(d, Parent(r))
          ==> o.raised == Some(NotADirectoryError))
      && (r in d.files ==> o.raised == OpenError(d, b))
  {
    var r := ps.RulesFile();
    if r in d.files {
      ConcatLines(Universal(d.files[r]));
      WriteValid(d, BackupTarget(ps, t), Universal(d.files[r]));
    }
  }

  /** main.py's `file_backup` on any disk. The `mkdir` fails exactly when a file is in the way
      of the backup directory, and then nothing changes; FileExistsError when the file is the
      backup directory itself. After a successful `mkdir` the backup directory and the
      directory of the rules file exist, so the copy succeeds exactly when the rules file
      exists and no directory holds the backup's name. A missing rules file raises
      FileNotFoundError, or IsADirectoryError when a directory has its name, the backup
      directory included. */
  lemma BackupMakingDirEffect(d: Disk, ps: Paths, t: Time)
    requires Valid(d)
    ensures var o, r, b, bd := BackupMakingDir(d, ps, t), ps.RulesFile(), BackupTarget(ps, t), ps.BackupDir();
      var made := bd in d.dirs || !FileOnPath(d, bd);
      && Valid(o.disk) && d.dirs <= o.disk.dirs
      && (!made ==> o.disk == d && o.raised != None)
      && (bd in d.files ==> o.raised == Some(FileExistsError))
      && (bd !in d.dirs && bd !in d.files && FileOnPath(d, bd) ==> o.raised == Some(NotADirectoryError))
      && (made ==> bd in o.disk.dirs)
      && (o.raised == None <==> made && r in d.files && b !in d.dirs)
      && (o.raised == None ==> o.disk.files == d.files[b := Universal(d.files[r])])
      && (o.raised != None ==> o.disk.files == d.files)
      && (made && r !in d.files && r !in d.dirs && r != bd ==> o.raised == Some(FileNotFoundError))
      && (made && r !in d.files && (r in d.dirs || r == bd) ==> o.raised == Some(IsADirectoryError))
  {
    var r, b, bd := ps.RulesFile(), BackupTarget(ps, t), ps.BackupDir();
    var m := MakeDirs(d, bd);
    MakeDirsValid(d, bd);
    assert bd[..|bd|] == bd;
    if m.raised == None {
      BackupEffect(m.disk, ps, t);
      BackupTargetShape(ps, t);
      assert Parent(r) == ps.base == Parent(bd);
      assert bd[..|ps.base|] == ps.base;
      assert b !in Prefixes(bd) by {
        assert forall k :: 0 <= k <= |bd| ==> |bd[..k]| < |b|;
      }
      assert r in Prefixes(bd) ==> r == bd by {
        assert forall k :: 0 <= k <= |bd| && bd[..k] == r ==> k == |bd|;
      }
      assert b in m.disk.dirs <==> b in d.dirs;
      assert ps.base in m.disk.dirs;
    }
  }

  /** Reading the backup back gives what reading the rules file gave, and the rules file
      still reads the same. */
  lemma BackupReadsBack(d: Disk, ps: Paths, t: Time)
    requires Valid(d) && Backup(d, ps, t).raised == None
    ensures ReadFile(Backup(d, ps, t).disk, BackupTarget(ps, t)) == ReadFile(d, ps.RulesFile())
    ensures ReadFile(Backup(d, ps, t).disk, ps.RulesFile()) == ReadFile(d, ps.RulesFile())
  {
    BackupEffect(d, ps, t);
    BackupTargetShape(ps, t);
    UniversalIdempotent(d.files[ps.RulesFile()]);
  }

  /** A second backup within the same second overwrites the first with the same text. */
  lemma BackupTwice(d: Disk, ps: Paths, t: Time)
    requires Valid(d) && Backup(d, ps, t).raised == None
    ensures Backup(Backup(d, ps, t).disk, ps, t) == Backup(d, ps, t)
  {
    var o := Backup(d, ps, t);
    var r, b := ps.RulesFile(), BackupTarget(ps, t);
    BackupEffect(d, ps, t);
    BackupTargetShape(ps, t);
    BackupEffect(o.disk, ps, t);
    OpenOk(d, b);
    assert o.disk.files[b := Universal(o.disk.files[r])] == o.disk.files;
  }

  /** The backup step of `append_rule`, with or without making the backup directory first. */
  lemma BackupStep(d: Disk, ps: Paths, t: Time, makeDir: bool)
    requires Valid(d) && ps.RulesFile() in d.files
    ensures var o, r, b := (if makeDir then BackupMakingDir(d, ps, t) else Backup(d, ps, t)),
                           ps.RulesFile(), BackupTarget(ps, t);
      && Valid(o.disk)
      && (!makeDir ==> o.disk.dirs == d.dirs)
      && (o.raised == None ==> o.disk.files == d.files[b := Universal(d.files[r])])
      && (o.raised != None ==> o.disk.files == d.files)
  {
    if makeDir {
      var m := MakeDirs(d, ps.BackupDir());
      MakeDirsValid(d, ps.BackupDir());
      if m.raised == None {
        BackupEffect(m.disk, ps, t);
      }
    } else {
      BackupEffect(d, ps, t);
    }
  }

  // ---------------------------------------------------------------------
  // append_rule

  /** Reading a file that ends in an appended entry gives a line containing the rule. */
  lemma EntryFound(c: string, rule: string)
    requires NoBreak(rule)
    ensures AnyContains(Lines(Universal(c + Entry(Str(rule)))), rule)
  {
    var a, l := EntrySplit(c, rule);
    UniversalEndsLine(a);
    var u := Universal(a);
    LinesAppend(u, l);
    OneLine(rule);
    ContainsAt(l, rule, 0);
    assert Lines(u + l)[|Lines(u)|] == l;
  }

  /** The appended entry ends the line before it and reads back as a line of its own. */
  lemma EntrySplit(c: string, rule: string) returns (a: string, l: string)
    requires NoBreak(rule)
    ensures a == c + "\n" && l == rule + "\n"
    ensures Universal(c + Entry(Str(rule))) == Universal(a) + l
  {
    a, l := c + "\n", rule + "\n";
    SeqAssoc("\n", rule, "\n");
    SeqAssoc(c, "\n", l);
    UniversalConcat(a, l);
    assert '\r' !in l;
    UniversalNoCR(l);
  }

  /** What `append_rule` does to the disk once it has a rule: when the rules file already holds
      the rule, or cannot be read, nothing; otherwise the rules file grows by the entry and
      only by it, the backup holds what reading the rules file gave before, and no other file
      changes. */
  lemma AddRuleEffect(d: Disk, ps: Paths, t: Time, rule: Value, makeDir: bool)
    requires Valid(d)
    ensures var o, r, b := AddRule(d, ps, t, rule, makeDir), ps.RulesFile(), BackupTarget(ps, t);
      var added := o.raised == None && RuleExists(d, ps, rule) == Ok(false);
      && Valid(o.disk)
      && (RuleExists(d, ps, rule) != Ok(false) ==> o.disk == d)
      && (r in o.disk.files <==> r in d.files)
      && (r in d.files ==> o.disk.files[r] == if added then d.files[r] + Entry(rule) else d.files[r])
      && (added ==> b in o.disk.files && o.disk.files[b] == Universal(d.files[r]))
      && (forall p :: p in o.disk.files && p != b ==> p in d.files)
      && (forall p :: p in d.files && p != r && p != b ==> p in o.disk.files && o.disk.files[p] == d.files[p])
      && (!makeDir ==> o.disk.dirs == d.dirs)
  {
    var r := ps.RulesFile();
    if RuleExists(d, ps, rule) == Ok(false) {
      BackupTargetShape(ps, t);
      BackupStep(d, ps, t, makeDir);
      var o := if makeDir then BackupMakingDir(d, ps, t) else Backup(d, ps, t);
      if o.raised == None {
        AppendExisting(o.disk, r, Entry(rule));
      }
    }
  }

  /** After a successful `append_rule` the rules file holds the rule, so the same rule again,
      at any time, changes nothing. */
  lemma AddRulePresent(d: Disk, ps: Paths, t: Time, rule: string, makeDir: bool)
    requires Valid(d) && NoBreak(rule) && AddRule(d, ps, t, Str(rule), makeDir).raised == None
    ensures RuleExists(AddRule(d, ps, t, Str(rule), makeDir).disk, ps, Str(rule)) == Ok(true)
  {
    AddRuleEffect(d, ps, t, Str(rule), makeDir);
    if RuleExists(d, ps, Str(rule)) == Ok(false) {
      EntryFound(d.files[ps.RulesFile()], rule);
    }
  }

  lemma AddRuleIdempotent(d: Disk, ps: Paths, t: Time, t2: Time, rule: string, makeDir: bool)
    requires Valid(d) && NoBreak(rule) && AddRule(d, ps, t, Str(rule), makeDir).raised == None
    ensures var d1 := AddRule(d, ps, t, Str(rule), makeDir).disk;
      AddRule(d1, ps, t2, Str(rule), makeDir) == Outcome(d1, None)
  {
    AddRulePresent(d, ps, t, rule, makeDir);
  }

  /** A rule the rules file holds stays found whatever is appended after it. */
  lemma AddRuleKeeps(d: Disk, ps: Paths, t: Time, rule: Value, makeDir: bool, other: string)
    requires Valid(d) && RuleExists(d, ps, Str(other)) == Ok(true)
    ensures RuleExists(AddRule(d, ps, t, rule, makeDir).disk, ps, Str(other)) == Ok(true)
  {
    var r := ps.RulesFile();
    AddRuleEffect(d, ps, t, rule, makeDir);
    var o := AddRule(d, ps, t, rule, makeDir);
    if o.disk.files[r] != d.files[r] {
      var v := UniversalAppend(d.files[r], Entry(rule));
      AnyContainsExtend(Universal(d.files[r]), v, other);
    }
  }

  /** With the backup directory in place, a rule the rules file lacks is backed up and then
      appended, and nothing raises. */
  lemma AddRuleAppends(d: Disk, ps: Paths, t: Time, rule: string)
    requires Valid(d) && ps.RulesFile() in d.files
    requires ps.BackupDir() in d.dirs && BackupTarget(ps, t) !in d.dirs
    requires RuleExists(d, ps, Str(rule)) == Ok(false)
    ensures var o := AddRule(d, ps, t, Str(rule), false);
      && o.raised == None && Valid(o.disk) && o.disk.dirs == d.dirs
      && ps.RulesFile() in o.disk.files
      && o.disk.files[ps.RulesFile()] == d.files[ps.RulesFile()] + Entry(Str(rule))
  {
    BackupTargetShape(ps, t);
    BackupEffect(d, ps, t);
    AddRuleEffect(d, ps, t, Str(rule), false);
  }

  /** `rule_exists` looks for a rule line by line in text read with universal newlines, so a
      rule with a '\n' before its last character, or with a '\r', is never found: with the
      backup directory in place, every `append_rule` of it appends it again. */
  lemma SpanningRuleAppended(d: Disk, ps: Paths, t: Time, rule: string, j: nat)
    requires Valid(d) && ps.RulesFile() in d.files
    requires ps.BackupDir() in d.dirs && BackupTarget(ps, t) !in d.dirs
    requires Spanning(rule, j)
    ensures var o := AddRule(d, ps, t, Str(rule), false);
      && o.raised == None && Valid(o.disk) && o.disk.dirs == d.dirs
      && ps.RulesFile() in o.disk.files
      && o.disk.files[ps.RulesFile()] == d.files[ps.RulesFile()] + Entry(Str(rule))
  {
    SpanningNotFound(d.files[ps.RulesFile()], rule, j);
    AddRuleAppends(d, ps, t, rule);
  }

  /** Appending a rule that spans lines twice stores it twice. */
  lemma SplitRuleDuplicated(d: Disk, ps: Paths, t1: Time, t2: Time, rule: string, j: nat)
    requires Valid(d) && ps.RulesFile() in d.files && Spanning(rule, j)
    requires ps.BackupDir() in d.dirs && BackupTarget(ps, t1) !in d.dirs && BackupTarget(ps, t2) !in d.dirs
    ensures var o1 := AddRule(d, ps, t1, Str(rule), false);
      var o2 := AddRule(o1.disk, ps, t2, Str(rule), false);
      && o1.raised == None && o2.raised == None && ps.RulesFile() in o2.disk.files
      && o2.disk.files[ps.RulesFile()] == d.files[ps.RulesFile()] + Entry(Str(rule)) + Entry(Str(rule))
  {
    SpanningRuleAppended(d, ps, t1, rule, j);
    var d1 := AddRule(d, ps, t1, Str(rule), false).disk;
    SpanningRuleAppended(d1, ps, t2, rule, j);
  }

  /** Every append path keeps a tree a tree. */
  lemma AppendValid(d: Disk, ps: Paths, t: Time, translation: Result<Option<string>>, makeDir: bool)
    requires Valid(d)
    ensures Valid(AppendTranslated(d, ps, t, translation, makeDir).disk)
    ensures Valid(LegacyAppend(d, ps, t, translation).disk)
  {
    if translation.Ok? && translation.value.Some? {
      AddRuleEffect(d, ps, t, Str(translation.value.value), makeDir);
      AddRuleEffect(d, ps, t, Bool(false), false);
    }
  }

  /** The legacy `append_rule` never stores the translated rule: with a non-empty rules file
      `False in line` raises TypeError before anything is written; with an empty one the
      backup is taken and the text `False` is appended. */
  lemma LegacyAppendEffect(d: Disk, ps: Paths, t: Time, translation: Result<Option<string>>)
    requires Valid(d) && translation.Ok? && translation.value.Some? && ps.RulesFile() in d.files
    ensures var o, r := LegacyAppend(d, ps, t, translation), ps.RulesFile();
      && (d.files[r] != "" ==> o == Outcome(d, Some(TypeError)))
      && (d.files[r] == "" ==> o.disk.files[r] == if o.raised == None then "\nFalse\n" else "")
  {
    if d.files[ps.RulesFile()] == "" {
      LegacyEmptyFile(d, ps, t);
    } else {
      assert Universal(d.files[ps.RulesFile()]) != "";
    }
  }

  lemma LegacyEmptyFile(d: Disk, ps: Paths, t: Time)
    requires Valid(d) && ps.RulesFile() in d.files && d.files[ps.RulesFile()] == ""
    ensures var o := AddRule(d, ps, t, Bool(false), false);
      o.disk.files[ps.RulesFile()] == if o.raised == None then "\nFalse\n" else ""
  {
    AddRuleEffect(d, ps, t, Bool(false), false);
    assert Entry(Bool(false)) == "\nFalse\n";
  }
}

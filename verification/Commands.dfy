/** What the two command lines say: the options that a parser reads back from them. */
module Commands {
  import opened Basics
  import opened Backup
  import opened Restore

  /** The options between the command's name and its last argument, read pair by pair. */
  function Pairs(words: seq<string>): seq<(string, string)>
    decreases |words|
  {
    if |words| < 2 then []
    else
      var n := |words|;
      Pairs(words[..n - 2]) + [(words[n - 2], words[n - 1])]
  }

  function Options(command: seq<string>): seq<(string, string)>
    requires |command| >= 4
  {
    Pairs(command[3..|command| - 1])
  }

  /** Three words, pairs, and one more word. */
  predicate WellFormed(command: seq<string>, verb: string, last: string) {
    && |command| >= 4 && |command| % 2 == 0
    && command[0] == "influxd" && command[1] == verb && command[2] == "-portable"
    && command[|command| - 1] == last
  }

  /** No option is given twice. */
  predicate Once(options: seq<(string, string)>) {
    forall i, j | 0 <= i < j < |options| :: options[i].0 != options[j].0
  }

  function Opt(cond: bool, flag: string, value: string): seq<(string, string)> {
    if cond then [(flag, value)] else []
  }

  /** The command so far: its name, and these options. */
  predicate Spells(c: seq<string>, verb: string, options: seq<(string, string)>) {
    && |c| >= 3 && |c| % 2 == 1
    && c[0] == "influxd" && c[1] == verb && c[2] == "-portable"
    && Pairs(c[3..]) == options
  }

  lemma Begins(verb: string)
    ensures Spells(["influxd", verb, "-portable"], verb, [])
  {
  }

  lemma Append(c: seq<string>, verb: string, options: seq<(string, string)>, cond: bool, flag: string, value: string)
    returns (c': seq<string>, options': seq<(string, string)>)
    requires Spells(c, verb, options)
    ensures c' == WithFlag(c, cond, flag, value) && options' == options + Opt(cond, flag, value)
    ensures Spells(c', verb, options')
  {
    c', options' := WithFlag(c, cond, flag, value), options + Opt(cond, flag, value);
    if cond {
      var words := (c + [flag, value])[3..];
      assert words == c[3..] + [flag, value];
      assert words[..|words| - 2] == c[3..];
    } else {
      assert options' == options;
    }
  }

  lemma Ends(c: seq<string>, verb: string, options: seq<(string, string)>, last: string)
    requires Spells(c, verb, options)
    ensures WellFormed(c + [last], verb, last) && Options(c + [last]) == options
  {
    assert (c + [last])[3..|c + [last]| - 1] == c[3..];
  }

  /** The options of a restore, in the order in which they are given. */
  function RestoreOptions(spec: RestoreSpec): seq<(string, string)> {
    [] + Opt(spec.database != "", "-db", spec.database)
    + Opt(spec.restoreTo != "", "-newdb", spec.restoreTo)
    + Opt(spec.rp != "" && spec.database != "", "-rp", spec.rp)
    + Opt(spec.newRp != "" && spec.rp != "", "-newrp", spec.newRp)
    + Opt(spec.shard != "" && spec.database != "" && spec.rp != "", "-shard", spec.shard)
  }

  lemma RestoreSpells(spec: RestoreSpec, restoreDir: string)
    ensures
      var c := RestoreCommand(spec, restoreDir);
      WellFormed(c, "restore", restoreDir + "/" + spec.backupId) && Options(c) == RestoreOptions(spec)
  {
    hide WithFlag, Spells, Opt, WellFormed, Options;
    Begins("restore");
    var c, options := Append(["influxd", "restore", "-portable"], "restore", [], spec.database != "", "-db",
                             spec.database);
    c, options := Append(c, "restore", options, spec.restoreTo != "", "-newdb", spec.restoreTo);
    c, options := Append(c, "restore", options, spec.rp != "" && spec.database != "", "-rp", spec.rp);
    c, options := Append(c, "restore", options, spec.newRp != "" && spec.rp != "", "-newrp", spec.newRp);
    c, options := Append(c, "restore", options, spec.shard != "" && spec.database != "" && spec.rp != "", "-shard",
                         spec.shard);
    Ends(c, "restore", options, restoreDir + "/" + spec.backupId);
  }

  /** The restore command names the directory last; before that it says exactly what the Restore object asks for, each
      at most once: -rp and -shard only with a database, -newrp and -shard only with a retention policy. */
  lemma RestoreCommandSays(spec: RestoreSpec, restoreDir: string, flag: string, value: string)
    ensures
      var c := RestoreCommand(spec, restoreDir);
      && WellFormed(c, "restore", restoreDir + "/" + spec.backupId) && Once(Options(c))
      && ((flag, value) in Options(c) <==>
            value != "" && match flag
                           case "-db" => value == spec.database
                           case "-newdb" => value == spec.restoreTo
                           case "-rp" => value == spec.rp && spec.database != ""
                           case "-newrp" => value == spec.newRp && spec.rp != ""
                           case "-shard" => value == spec.shard && spec.database != "" && spec.rp != ""
                           case _ => false)
  {
    hide RestoreCommand, Options;
    RestoreSpells(spec, restoreDir);
  }

  /** The database of a backup: the first of the list. */
  function DatabaseOf(spec: BackupSpec): string {
    if spec.databases.Some? && spec.databases.value != [] then spec.databases.value[0] else ""
  }

  function BackupOptions(spec: BackupSpec): seq<(string, string)> {
    [] + Opt(DatabaseOf(spec) != "", "-database", DatabaseOf(spec))
    + Opt(spec.databases.Some? && spec.retention != "", "--retention", spec.retention)
    + Opt(spec.retention != "" && spec.shard != "", "-shard", spec.shard)
    + Opt(spec.start != "", "-start", spec.start)
    + Opt(spec.end != "", "-end", spec.end)
    + Opt(spec.start == "" && spec.end == "" && spec.since != "", "-since", spec.since)
  }

  lemma BackupSpells(spec: BackupSpec, time: string)
    requires spec.databases != Some([])
    ensures
      var c := BackupCommand(spec, time);
      c.Some? && WellFormed(c.value, "backup", BACKUP_DIR + "/" + time) && Options(c.value) == BackupOptions(spec)
  {
    hide WithFlag, Spells, Opt, WellFormed, Options;
    Begins("backup");
    var c, options := Append(["influxd", "backup", "-portable"], "backup", [], DatabaseOf(spec) != "", "-database",
                             DatabaseOf(spec));
    c, options := Append(c, "backup", options, spec.databases.Some? && spec.retention != "", "--retention",
                         spec.retention);
    c, options := Append(c, "backup", options, spec.retention != "" && spec.shard != "", "-shard", spec.shard);
    c, options := Append(c, "backup", options, spec.start != "", "-start", spec.start);
    c, options := Append(c, "backup", options, spec.end != "", "-end", spec.end);
    c, options := Append(c, "backup", options, spec.start == "" && spec.end == "" && spec.since != "", "-since",
                         spec.since);
    Ends(c, "backup", options, BACKUP_DIR + "/" + time);
  }

  lemma NoCommand(spec: BackupSpec, time: string)
    ensures BackupCommand(spec, time).None? <==> spec.databases == Some([])
  {
    hide WithFlag;
  }

  /** The place of a flag among the options of a backup. */
  function Rank(flag: string): nat {
    match flag
    case "-database" => 0
    case "--retention" => 1
    case "-shard" => 2
    case "-start" => 3
    case "-end" => 4
    case _ => 5
  }

  predicate Ranked(options: seq<(string, string)>, n: nat) {
    && (forall i | 0 <= i < |options| :: Rank(options[i].0) < n)
    && forall i, j | 0 <= i < j < |options| :: Rank(options[i].0) < Rank(options[j].0)
  }

  lemma RankedAppend(options: seq<(string, string)>, cond: bool, flag: string, value: string)
    requires Ranked(options, Rank(flag))
    ensures Ranked(options + Opt(cond, flag, value), Rank(flag) + 1)
  {
    hide Rank;
  }

  lemma BackupOptionsOnce(spec: BackupSpec)
    ensures Once(BackupOptions(spec))
  {
    hide DatabaseOf, Opt, Ranked;
    var options: seq<(string, string)> := [];
    assert Ranked(options, 0) by {
      NothingRanked();
    }
    RankedAppend(options, DatabaseOf(spec) != "", "-database", DatabaseOf(spec));
    options := options + Opt(DatabaseOf(spec) != "", "-database", DatabaseOf(spec));
    RankedAppend(options, spec.databases.Some? && spec.retention != "", "--retention", spec.retention);
    options := options + Opt(spec.databases.Some? && spec.retention != "", "--retention", spec.retention);
    RankedAppend(options, spec.retention != "" && spec.shard != "", "-shard", spec.shard);
    options := options + Opt(spec.retention != "" && spec.shard != "", "-shard", spec.shard);
    RankedAppend(options, spec.start != "", "-start", spec.start);
    options := options + Opt(spec.start != "", "-start", spec.start);
    RankedAppend(options, spec.end != "", "-end", spec.end);
    options := options + Opt(spec.end != "", "-end", spec.end);
    RankedAppend(options, spec.start == "" && spec.end == "" && spec.since != "", "-since", spec.since);
    RankedOnce(BackupOptions(spec), 6);
  }

  lemma NothingRanked()
    ensures Ranked([], 0)
  {
  }

  lemma RankedOnce(options: seq<(string, string)>, n: nat)
    requires Ranked(options, n)
    ensures Once(options)
  {
    hide Rank;
  }

  lemma InOpt(cond: bool, flag: string, value: string, f: string, v: string)
    ensures (f, v) in Opt(cond, flag, value) <==> cond && f == flag && v == value
  {
  }

  lemma BackupOptionsHold(spec: BackupSpec, flag: string, value: string)
    ensures
      (flag, value) in BackupOptions(spec) <==>
        value != "" && match flag
                       case "-database" => value == DatabaseOf(spec)
                       case "--retention" => value == spec.retention && spec.databases.Some?
                       case "-shard" => value == spec.shard && spec.retention != ""
                       case "-start" => value == spec.start
                       case "-end" => value == spec.end
                       case "-since" => value == spec.since && spec.start == "" && spec.end == ""
                       case _ => false
  {
    hide DatabaseOf, Opt;
    InOpt(DatabaseOf(spec) != "", "-database", DatabaseOf(spec), flag, value);
    InOpt(spec.databases.Some? && spec.retention != "", "--retention", spec.retention, flag, value);
    InOpt(spec.retention != "" && spec.shard != "", "-shard", spec.shard, flag, value);
    InOpt(spec.start != "", "-start", spec.start, flag, value);
    InOpt(spec.end != "", "-end", spec.end, flag, value);
    InOpt(spec.start == "" && spec.end == "" && spec.since != "", "-since", spec.since, flag, value);
  }

  /** The backup command names its directory last; before that it says exactly what the Backup object asks for, each at
      most once: --retention only with a list of databases, -shard only with a retention policy, and -since only
      without -start and -end. There is no command exactly for an empty list of databases that is not nil. */
  lemma BackupCommandSays(spec: BackupSpec, time: string, flag: string, value: string)
    ensures BackupCommand(spec, time).None? <==> spec.databases == Some([])
    ensures
      spec.databases != Some([]) ==>
        var c := BackupCommand(spec, time).value;
        && WellFormed(c, "backup", BACKUP_DIR + "/" + time) && Once(Options(c))
        && ((flag, value) in Options(c) <==>
              value != "" && match flag
                             case "-database" => spec.databases.Some? && value == spec.databases.value[0]
                             case "--retention" => value == spec.retention && spec.databases.Some?
                             case "-shard" => value == spec.shard && spec.retention != ""
                             case "-start" => value == spec.start
                             case "-end" => value == spec.end
                             case "-since" => value == spec.since && spec.start == "" && spec.end == ""
                             case _ => false)
  {
    hide WithFlag, Options, WellFormed, BackupOptions, Once, BackupCommand;
    NoCommand(spec, time);
    if spec.databases != Some([]) {
      BackupSpells(spec, time);
      BackupOptionsOnce(spec);
      BackupOptionsHold(spec, flag, value);
    }
  }
}

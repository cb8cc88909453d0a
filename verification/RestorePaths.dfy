/** Where a restored key lands: the string assembly of a destination, taken apart again by the file-spec
    parser and resolved to path components. */
module RestorePaths {
  import opened Basics
  import opened Paths
  import opened Copy
  import opened Storage
  import opened Backup
  import opened Restore

  const STEM := "/var/lib/influxdb"
  const STEM_PATH := ["var", "lib", "influxdb"]
  const BACKUP_PATH := ["var", "lib", "influxdb", "backup"]
  const RESTORE_PATH := ["var", "lib", "influxdb", "restore"]

  /** A backup id: the second it was taken in, as 14 digits. */
  predicate IsId(t: string) {
    |t| == 14 && forall i | 0 <= i < 14 :: '0' <= t[i] <= '9'
  }

  lemma IdIsGood(t: string)
    requires IsId(t)
    ensures Good(t) && t != "restore" && t != "backup" && ':' !in t
  {
    assert |"restore"| == 7 && |"backup"| == 6;
  }

  predicate IsRestoreDir(dir: string) {
    dir == RESTORE_DIR || dir == BACKUP_DIR
  }

  function LastOf(dir: string): string {
    if dir == BACKUP_DIR then "backup" else "restore"
  }

  function PathOf(dir: string): seq<string> {
    STEM_PATH + [LastOf(dir)]
  }

  lemma DirSpelled(dir: string)
    requires IsRestoreDir(dir)
    ensures dir == STEM + "/" + LastOf(dir) && Good(LastOf(dir)) && ':' !in dir
  {
    assert RESTORE_DIR == STEM + "/" + "restore";
    assert BACKUP_DIR == STEM + "/" + "backup";
  }

  lemma StemResolves()
    ensures Resolve(STEM) == STEM_PATH && AllGood(STEM_PATH)
  {
    hide Resolve;
    ResolveEmpty();
    ResolveChild("", "var");
    assert "" + "/" + "var" == "/var";
    ResolveChild("/var", "lib");
    assert "/var" + "/" + "lib" == "/var/lib";
    ResolveChild("/var/lib", "influxdb");
    assert "/var/lib" + "/" + "influxdb" == STEM;
    assert [] + ["var"] + ["lib"] + ["influxdb"] == STEM_PATH;
  }

  lemma ResolveEmpty()
    ensures Resolve("") == []
  {
  }

  lemma DirResolves(dir: string)
    requires IsRestoreDir(dir)
    ensures Resolve(dir) == PathOf(dir) && |PathOf(dir)| == 4 && AllGood(PathOf(dir))
    ensures PathOf(BACKUP_DIR) == BACKUP_PATH && PathOf(RESTORE_DIR) == RESTORE_PATH
  {
    hide Resolve;
    StemResolves();
    DirSpelled(dir);
    ResolveChild(STEM, LastOf(dir));
    assert BACKUP_DIR != RESTORE_DIR by {
      assert |BACKUP_DIR| != |RESTORE_DIR|;
    }
  }

  /** What follows `restoreDir/` in the destination of a key. */
  function Rest(folder: string, id: string, key: string): string {
    id + TrimPrefix(key, RemoteFolder(folder, id))
  }

  function Destination(ns: string, podName: string, restoreDir: string, folder: string, id: string,
                       key: string): string {
    DestinationBase(ns, podName, restoreDir, id) + TrimPrefix(key, RemoteFolder(folder, id))
  }

  lemma RestCompletesKey(folder: string, id: string, key: string)
    requires RemoteFolder(folder, id) <= key
    ensures folder + "/" + Rest(folder, id, key) == key
  {
    assert key == RemoteFolder(folder, id) + key[|RemoteFolder(folder, id)|..];
  }

  lemma DestinationSpelled(ns: string, podName: string, restoreDir: string, folder: string, id: string, key: string)
    ensures Destination(ns, podName, restoreDir, folder, id, key)
         == ns + "/" + podName + ":" + (restoreDir + "/" + Rest(folder, id, key))
  {
    var tail := TrimPrefix(key, RemoteFolder(folder, id));
    var head := ns + "/" + podName + ":";
    assert head + restoreDir + "/" + id + tail == head + (restoreDir + "/" + (id + tail));
  }

  /** Cutting a colon-separated string at its first colon keeps the end of what follows the separator. */
  lemma CutAtColon(head: string, body: string)
    ensures
      var s := head + ":" + body;
      var i := IndexOf(s, ':');
      i != -1 && exists z: string :: s[i + 1..] == z + body
  {
    var s := head + ":" + body;
    assert s[|head|] == ':';
    assert ':' in s;
    var i := IndexOf(s, ':');
    assert i <= |head|;
    if i == |head| {
      assert s[i + 1..] == "" + body;
    } else {
      assert s[i + 1..] == head[i + 1..] + ":" + body;
      assert s[i + 1..] == (head[i + 1..] + ":") + body;
    }
  }

  lemma DestinationFile(ns: string, podName: string, restoreDir: string, folder: string, id: string, key: string)
    requires ExtractFileSpec(Destination(ns, podName, restoreDir, folder, id, key)).Some?
    ensures exists z: string ::
              ExtractFileSpec(Destination(ns, podName, restoreDir, folder, id, key)).value.file
              == (z + restoreDir) + "/" + Rest(folder, id, key)
  {
    hide ExtractFileSpec, IndexOf, Rest, Destination;
    var dest, rest := Destination(ns, podName, restoreDir, folder, id, key), Rest(folder, id, key);
    DestinationSpelled(ns, podName, restoreDir, folder, id, key);
    CutAtColon(ns + "/" + podName, restoreDir + "/" + rest);
    var z: string :| dest[IndexOf(dest, ':') + 1..] == z + (restoreDir + "/" + rest);
    SpecFile(dest);
    assert z + (restoreDir + "/" + rest) == (z + restoreDir) + "/" + rest;
  }

  /** The pieces of what follows `restoreDir/` end in the id and the name, or are the name alone. */
  lemma RestPieces(folder: string, id: string, folder': string, t: string, name: string)
    requires '/' !in t && '/' !in name && RemoteFolder(folder, id) <= Key(folder', t, name)
    ensures
      var pieces := Split(Rest(folder, id, Key(folder', t, name)), '/');
      pieces == [name] || (|pieces| >= 2 && pieces[|pieces| - 2..] == [t, name])
  {
    var key := Key(folder', t, name);
    var rest := Rest(folder, id, key);
    RestCompletesKey(folder, id, key);
    SplitConcat(folder, rest, '/');
    KeySplits(folder', t, name);
    var a, b, c := Split(folder, '/'), Split(rest, '/'), Split(folder', '/');
    var whole := a + b;
    assert whole == c + [t, name];
    assert whole[|whole| - 1] == b[|b| - 1] == name;
    if |b| >= 2 {
      assert whole[|whole| - 2] == b[|b| - 2] == t;
    }
  }

  /** Whatever folder, id, namespace and pod name a Restore object holds, a key that it lists lands on a path
      that ends in the backup's id and the file's name, or in the file's name right below a restore
      directory. */
  lemma KeyLandsOn(ns: string, podName: string, restoreDir: string, folder: string, id: string, folder': string,
                   t: string, name: string)
    requires IsRestoreDir(restoreDir) && Good(t) && Good(name)
    requires RemoteFolder(folder, id) <= Key(folder', t, name)
    requires ExtractFileSpec(Destination(ns, podName, restoreDir, folder, id, Key(folder', t, name))).Some?
    ensures
      var spec := ExtractFileSpec(Destination(ns, podName, restoreDir, folder, id, Key(folder', t, name)));
      var p := Resolve(spec.value.file);
      |p| >= 2 && p[|p| - 1] == name && (p[|p| - 2] == t || p[|p| - 2] == LastOf(restoreDir))
  {
    hide Resolve, Rest, Destination, ExtractFileSpec, Key, RemoteFolder, IsRestoreDir, LastOf, Split;
    var key := Key(folder', t, name);
    DestinationFile(ns, podName, restoreDir, folder, id, key);
    var rest := Rest(folder, id, key);
    var z: string :| ExtractFileSpec(Destination(ns, podName, restoreDir, folder, id, key)).value.file
                     == (z + restoreDir) + "/" + rest;
    RestPieces(folder, id, folder', t, name);
    BelowRestoreDir(z, restoreDir, rest, t, name);
  }

  lemma BelowRestoreDir(z: string, restoreDir: string, rest: string, t: string, name: string)
    requires IsRestoreDir(restoreDir) && Good(t) && Good(name)
    requires
      var pieces := Split(rest, '/');
      pieces == [name] || (|pieces| >= 2 && pieces[|pieces| - 2..] == [t, name])
    ensures
      var p := Resolve((z + restoreDir) + "/" + rest);
      |p| >= 2 && p[|p| - 1] == name && (p[|p| - 2] == t || p[|p| - 2] == LastOf(restoreDir))
  {
    hide Resolve, Slashed;
    var pieces, above := Split(rest, '/'), Resolve(z + restoreDir);
    ResolveConcat(z + restoreDir, rest);
    DirSpelled(restoreDir);
    assert z + restoreDir == (z + STEM) + "/" + LastOf(restoreDir);
    ResolveChild(z + STEM, LastOf(restoreDir));
    if pieces == [name] {
      WalkGood(above, [name]);
    } else {
      var init := pieces[..|pieces| - 2];
      assert pieces == init + [t, name];
      WalkConcat(above, init, [t, name]);
      WalkGood(Walk(above, init), [t, name]);
    }
  }

  /** Restoring a backup by its own folder and id puts each file at restoreDir/id/name in the named pod. */
  lemma OwnKeyLandsOn(ns: string, podName: string, restoreDir: string, folder: string, t: string, name: string)
    requires IsRestoreDir(restoreDir) && Good(t) && Good(name) && ValidName(ns) && ValidName(podName)
    ensures RemoteFolder(folder, t) <= Key(folder, t, name)
    ensures
      var dest := Destination(ns, podName, restoreDir, folder, t, Key(folder, t, name));
      var file := restoreDir + "/" + t + "/" + name;
      && ExtractFileSpec(dest) == Some(FileSpec(ns, podName, file))
      && Resolve(file) == PathOf(restoreDir) + [t, name]
      && FilePart(file) == name
  {
    hide Resolve, ExtractFileSpec;
    var key, remote := Key(folder, t, name), RemoteFolder(folder, t);
    assert key == remote + ("/" + name);
    assert key[|remote|..] == "/" + name;
    var file := restoreDir + "/" + t + "/" + name;
    DestinationSpelled(ns, podName, restoreDir, folder, t, key);
    assert restoreDir + "/" + Rest(folder, t, key) == file;
    FileSpecRoundTrip(ns, podName, file);
    DirResolves(restoreDir);
    ResolveChild(restoreDir, t);
    ResolveChild(restoreDir + "/" + t, name);
    assert PathOf(restoreDir) + [t] + [name] == PathOf(restoreDir) + [t, name];
    DirAndFile(restoreDir + "/" + t, name);
  }
}

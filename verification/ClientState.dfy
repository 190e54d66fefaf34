/** The client's saved domains: internal/client/state.go, with any number of processes saving at once. */
module ClientState {
  import opened Wrappers

  /** The file-name hash, and the JSON text of a state file. */
  datatype Format = Format(
    filename: string -> string, encode: (string, string) -> string, decode: string -> Option<(string, string)>)

  /** What is assumed of JSON: an object reads back as written, and no proper prefix of its text parses.
      Nothing is assumed of the file-name hash. */
  ghost predicate IsCodec(format: Format) {
    forall key, domain, text :: text <= format.encode(key, domain) ==>
      format.decode(text) == if text == format.encode(key, domain) then Some((key, domain)) else None
  }

  /** A directory of links to files. `author` records whose text a file is meant to hold,
      `synced` how much of it has reached the disk, `links` every link there ever was. */
  datatype Disk = Disk(
    dir: map<string, int>,
    data: map<int, string>,
    synced: map<int, nat>,
    legacy: map<string, string>,
    author: map<int, (string, string)>,
    links: set<(string, int)>)

  /** loadDomainAt: the key's own file if it parses and carries the key, else the legacy file, else nothing. */
  function Load(format: Format, disk: Disk, key: string): string {
    var name := format.filename(key);
    var own := if name in disk.dir && disk.dir[name] in disk.data then format.decode(disk.data[disk.dir[name]])
        else None;
    if own.Some? && own.value.0 == key then own.value.1
    else if key in disk.legacy then disk.legacy[key] else ""
  }

  /** Where one call of saveDomainAt stands. */
  datatype Phase =
    | Starting
    | Writing(temp: string, file: int)
    | Written(temp: string, file: int)     // synced and closed
    | Refused(temp: string)                // rename reported that the destination exists
    | Retrying(temp: string)               // destination removed
    | Cleaning(temp: string)               // deferred removal of the temporary name
    | Ended

  datatype Saver = Saver(key: string, domain: string, phase: Phase)

  /** `asked`, `temps` and `latest` only record the past: the saves begun, the temporary names used, and per key
      the domain of its latest completed rename. */
  datatype State = State(
    disk: Disk, savers: map<int, Saver>, asked: set<(string, string)>, temps: set<string>, latest: map<string, string>)

  datatype Step =
    | Begin(p: int, key: string, domain: string)
    | Create(p: int, temp: string, file: int)
    | Write(p: int, upto: nat)
    | Sync(p: int)
    | Rename(p: int)
    | RenameExists(p: int)
    | RemoveOld(p: int)
    | GiveUp(p: int)                                      // any error after the file was created
    | Clean(p: int)
    | Kill(p: int)                                      // the process dies
    | Crash(kept: map<int, nat>, dir: map<string, int>) // the machine dies

  ghost predicate Init(s: State) {
    s.disk.dir == map[] && s.disk.data == map[] && s.disk.synced == map[] && s.disk.author == map[]
        && s.disk.links == {}
    && s.savers == map[] && s.asked == {} && s.temps == {} && s.latest == map[]
  }

  function Text(format: Format, saver: Saver): string {
    format.encode(saver.key, saver.domain)
  }

  ghost predicate Can(format: Format, s: State, step: Step) {
    match step
    case Begin(p, key, domain) => p !in s.savers
    case Create(p, temp, file) =>
      p in s.savers && s.savers[p].phase.Starting? && temp !in s.disk.dir && file !in s.disk.data
          && (forall key :: format.filename(key) != temp)
    case Write(p, upto) =>
      p in s.savers && s.savers[p].phase.Writing? && s.savers[p].phase.file in s.disk.data
      && |s.disk.data[s.savers[p].phase.file]| < upto <= |Text(format, s.savers[p])|
    case Sync(p) =>
      p in s.savers && s.savers[p].phase.Writing? && s.savers[p].phase.file in s.disk.data
      && s.disk.data[s.savers[p].phase.file] == Text(format, s.savers[p])
    case Rename(p) =>
      && p in s.savers && (s.savers[p].phase.Written? || s.savers[p].phase.Retrying?)
      && s.savers[p].phase.temp in s.disk.dir
    case RenameExists(p) =>
      p in s.savers && s.savers[p].phase.Written? && format.filename(s.savers[p].key) in s.disk.dir
    case RemoveOld(p) => p in s.savers && s.savers[p].phase.Refused?
    case GiveUp(p) =>
      && p in s.savers
      && (s.savers[p].phase.Writing? || s.savers[p].phase.Written? || s.savers[p].phase.Refused?
          || s.savers[p].phase.Retrying?)
    case Clean(p) => p in s.savers && s.savers[p].phase.Cleaning?
    case Kill(p) => p in s.savers
    case Crash(kept, dir) =>
      && (forall f :: f in s.disk.data ==>
           f in kept && f in s.disk.synced && s.disk.synced[f] <= kept[f] <= |s.disk.data[f]|)
      && (forall name :: name in dir ==> (name, dir[name]) in s.disk.links)
  }

  function Moved(s: State, p: int, phase: Phase): State
    requires p in s.savers
  {
    s.(savers := s.savers[p := s.savers[p].(phase := phase)])
  }

  ghost function After(format: Format, s: State, step: Step): State
    requires Can(format, s, step)
  {
    var disk := s.disk;
    match step
    case Begin(p, key, domain) =>
      s.(savers := s.savers[p := Saver(key, domain, Starting)], asked := s.asked + {(key, domain)})
    case Create(p, temp, file) =>
      Moved(s.(disk := disk.(dir := disk.dir[temp := file], data := disk.data[file := ""],
                             synced := disk.synced[file := 0],
                             author := disk.author[file := (s.savers[p].key, s.savers[p].domain)],
                             links := disk.links + {(temp, file)}),
               temps := s.temps + {temp}),
            p, Writing(temp, file))
    case Write(p, upto) =>
      s.(disk := disk.(data := disk.data[s.savers[p].phase.file := Text(format, s.savers[p])[..upto]]))
    case Sync(p) =>
      var file := s.savers[p].phase.file;
      Moved(s.(disk := disk.(synced := disk.synced[file := |disk.data[file]|])), p,
            Written(s.savers[p].phase.temp, file))
    case Rename(p) =>
      // The rename moves whatever the temporary name stands for now.
      var saver := s.savers[p];
      var target, file := format.filename(saver.key), disk.dir[saver.phase.temp];
      Moved(s.(disk := disk.(dir := (disk.dir - {saver.phase.temp})[target := file],
                             links := disk.links + {(target, file)}),
               latest := s.latest[saver.key := saver.domain]),
            p, Cleaning(saver.phase.temp))
    case RenameExists(p) => Moved(s, p, Refused(s.savers[p].phase.temp))
    case RemoveOld(p) =>
      Moved(s.(disk := disk.(dir := disk.dir - {format.filename(s.savers[p].key)})), p,
            Retrying(s.savers[p].phase.temp))
    case GiveUp(p) => Moved(s, p, Cleaning(s.savers[p].phase.temp))
    case Clean(p) => Moved(s.(disk := disk.(dir := disk.dir - {s.savers[p].phase.temp})), p, Ended)
    case Kill(p) => Moved(s, p, Ended)
    case Crash(kept, dir) =>
      s.(disk := disk.(dir := dir, data := map f | f in disk.data :: disk.data[f][..kept[f]]),
         savers := map p | p in s.savers :: s.savers[p].(phase := Ended))
  }

  datatype Run = Run(states: seq<State>, steps: seq<Step>) {
    ghost predicate Valid(format: Format) {
      && |states| == |steps| + 1 && Init(states[0])
      && forall i :: 0 <= i < |steps| ==> Follows(format, i)
    }

    ghost predicate Follows(format: Format, i: nat)
      requires i < |steps| && |states| == |steps| + 1
    {
      Can(format, states[i], steps[i]) && states[i + 1] == After(format, states[i], steps[i])
    }
  }

  // ---------------------------------------------------------------- nothing but what was saved

  /** Every file holds a beginning of the text that its author set out to save. */
  ghost predicate FilesHonest(format: Format, s: State) {
    forall f :: f in s.disk.data ==>
                  && f in s.disk.author && s.disk.author[f] in s.asked
                  && f in s.disk.synced && s.disk.synced[f] <= |s.disk.data[f]|
                  && s.disk.data[f] <= format.encode(s.disk.author[f].0, s.disk.author[f].1)
  }

  predicate Owns(s: State, p: int, file: int) {
    p in s.savers && (s.savers[p].phase.Writing? || s.savers[p].phase.Written?) && s.savers[p].phase.file == file
  }

  ghost predicate SaversHonest(s: State) {
    && (forall p :: p in s.savers ==> (s.savers[p].key, s.savers[p].domain) in s.asked)
    && (forall p, file :: Owns(s, p, file) ==>
          file in s.disk.data && file in s.disk.author && s.disk.author[file] == (s.savers[p].key, s.savers[p].domain))
  }

  ghost predicate Honest(format: Format, s: State) {
    FilesHonest(format, s) && SaversHonest(s)
  }

  lemma FilesHonestStep(format: Format, s: State, step: Step)
    requires Honest(format, s) && Can(format, s, step)
    ensures FilesHonest(format, After(format, s, step))
  {
    if step.Write? || step.Sync? {
      assert Owns(s, step.p, s.savers[step.p].phase.file);
    }
  }

  lemma SaversHonestStep(format: Format, s: State, step: Step)
    requires Honest(format, s) && Can(format, s, step)
    ensures SaversHonest(After(format, s, step))
  {
    var n := After(format, s, step);
    forall p, file | Owns(n, p, file)
      ensures file in n.disk.data && file in n.disk.author
              && n.disk.author[file] == (n.savers[p].key, n.savers[p].domain)
    {
      if step.Create? && step.p == p {
      } else {
        assert Owns(s, p, file);
      }
    }
  }

  lemma {:induction false} HonestThroughout(format: Format, run: Run, i: nat)
    requires run.Valid(format) && i < |run.states|
    ensures Honest(format, run.states[i])
  {
    if i > 0 {
      HonestThroughout(format, run, i - 1);
      assert run.Follows(format, i - 1);
      FilesHonestStep(format, run.states[i - 1], run.steps[i - 1]);
      SaversHonestStep(format, run.states[i - 1], run.steps[i - 1]);
    }
  }

  lemma {:induction false} AskedWasBegun(format: Format, run: Run, i: nat, key: string, domain: string)
    requires run.Valid(format) && i < |run.states| && (key, domain) in run.states[i].asked
    ensures exists j, p :: 0 <= j < i && run.steps[j] == Begin(p, key, domain)
  {
    assert run.Follows(format, i - 1);
    if (key, domain) in run.states[i - 1].asked {
      AskedWasBegun(format, run, i - 1, key, domain);
    } else {
      assert run.steps[i - 1] == Begin(run.steps[i - 1].p, key, domain);
    }
  }

  /** Safety for any schedule, any crash and any file-name hash, collisions and reused temporary names included:
      a load returns a domain that some save of this very key wrote in full, or the legacy entry, or nothing. */
  lemma LoadsOnlySaved(format: Format, run: Run, i: nat, key: string)
    requires IsCodec(format) && run.Valid(format) && i < |run.states|
    ensures var disk := run.states[i].disk;
            var domain := Load(format, disk, key);
            || domain == (if key in disk.legacy then disk.legacy[key] else "")
            || ((exists f :: f in disk.data && disk.data[f] == format.encode(key, domain))
                && exists j, p :: 0 <= j < i && run.steps[j] == Begin(p, key, domain))
  {
    HonestThroughout(format, run, i);
    var disk := run.states[i].disk;
    var name := format.filename(key);
    if name in disk.dir && disk.dir[name] in disk.data {
      var f := disk.dir[name];
      var author := disk.author[f];
      assert disk.data[f] <= format.encode(author.0, author.1);
      if format.decode(disk.data[f]) == Some(author) && author.0 == key {
        assert author == (key, author.1);
        AskedWasBegun(format, run, i, key, author.1);
      }
    }
  }

  // ---------------------------------------------------------------- the latest save wins

  /** Rename replaces atomically, temporary names are not used twice, and a completed rename survives a crash. */
  predicate Regular(s: State, step: Step) {
    match step
    case Create(p, temp, file) => temp !in s.temps
    case RenameExists(p) => false
    case Crash(kept, dir) => dir == s.disk.dir
    case _ => true
  }

  predicate UsesTemp(s: State, p: int, temp: string) {
    p in s.savers && (s.savers[p].phase.Writing? || s.savers[p].phase.Written? || s.savers[p].phase.Cleaning?)
        && s.savers[p].phase.temp == temp
  }

  ghost predicate TempsPrivate(format: Format, s: State) {
    && (forall p :: p in s.savers ==> !s.savers[p].phase.Refused? && !s.savers[p].phase.Retrying?)
    && (forall p, temp :: UsesTemp(s, p, temp) ==> temp in s.temps && forall key :: format.filename(key) != temp)
    && (forall p, q, temp :: UsesTemp(s, p, temp) && UsesTemp(s, q, temp) ==> p == q)
  }

  predicate Links(s: State, name: string, file: int) {
    name in s.disk.dir && s.disk.dir[name] == file
  }

  /** A file being written is reachable under its temporary name only; once synced it is complete. */
  ghost predicate FilesPrivate(format: Format, s: State) {
    && (forall name, file :: Links(s, name, file) ==> file in s.disk.data)
    && (forall p, file :: Owns(s, p, file) ==> Links(s, s.savers[p].phase.temp, file))
    && (forall p, file, name :: Owns(s, p, file) && Links(s, name, file) ==> name == s.savers[p].phase.temp)
    && (forall p, file :: Owns(s, p, file) && s.savers[p].phase.Written? ==>
         Complete(format, s, file, s.savers[p].key, s.savers[p].domain))
  }

  predicate Complete(format: Format, s: State, file: int, key: string, domain: string) {
    file in s.disk.data && file in s.disk.synced && s.disk.data[file] == format.encode(key, domain)
        && s.disk.synced[file] == |s.disk.data[file]|
  }

  /** The key's file is the one of its latest completed rename. */
  ghost predicate UpToDate(format: Format, s: State, key: string) {
    if key in s.latest
    then exists file :: Links(s, format.filename(key), file) && Complete(format, s, file, key, s.latest[key])
    else format.filename(key) !in s.disk.dir
  }

  ghost predicate NoCollision(format: Format, s: State, key: string) {
    forall other :: other in s.asked && format.filename(other.0) == format.filename(key) ==> other.0 == key
  }

  ghost predicate Ordered(format: Format, s: State) {
    Honest(format, s) && TempsPrivate(format, s) && FilesPrivate(format, s)
  }

  lemma TempsStep(format: Format, s: State, step: Step)
    requires Ordered(format, s) && Can(format, s, step) && Regular(s, step)
    ensures TempsPrivate(format, After(format, s, step))
  {
    var n := After(format, s, step);
    forall p, temp | UsesTemp(n, p, temp)
      ensures UsesTemp(s, p, temp) || (step.Create? && step.p == p && step.temp == temp)
    {
    }
  }

  lemma FilesStep(format: Format, s: State, step: Step)
    requires Ordered(format, s) && Can(format, s, step) && Regular(s, step)
    ensures FilesPrivate(format, After(format, s, step))
  {
    var n := After(format, s, step);
    forall name, file | Links(n, name, file)
      ensures file in n.disk.data
    {
      assert Links(s, name, file) || (step.Rename? && Links(s, s.savers[step.p].phase.temp, file)) || step.Create?;
    }
    forall p, file | Owns(n, p, file)
      ensures Links(n, n.savers[p].phase.temp, file)
      ensures forall name :: Links(n, name, file) ==> name == n.savers[p].phase.temp
      ensures n.savers[p].phase.Written? ==> Complete(format, n, file, n.savers[p].key, n.savers[p].domain)
    {
      OwnerStep(format, s, step, p, file);
    }
  }

  lemma OwnerStep(format: Format, s: State, step: Step, p: int, file: int)
    requires Ordered(format, s) && Can(format, s, step) && Regular(s, step)
    requires Owns(After(format, s, step), p, file)
    ensures var n := After(format, s, step);
            && Links(n, n.savers[p].phase.temp, file)
            && (forall name :: Links(n, name, file) ==> name == n.savers[p].phase.temp)
            && (n.savers[p].phase.Written? ==> Complete(format, n, file, n.savers[p].key, n.savers[p].domain))
  {
    var n := After(format, s, step);
    if step.Create? && step.p == p {
      assert file == step.file;
      forall name | Links(n, name, file)
        ensures name == step.temp
      {
        assert name != step.temp ==> Links(s, name, file);
      }
    } else {
      assert Owns(s, p, file) && UsesTemp(s, p, s.savers[p].phase.temp);
      assert Links(s, s.savers[p].phase.temp, file);
      if step.Rename? || step.Clean? {
        assert UsesTemp(s, step.p, s.savers[step.p].phase.temp);
        assert step.Rename? ==> Links(s, s.savers[step.p].phase.temp, s.disk.dir[s.savers[step.p].phase.temp]);
      }
      if step.Rename? {
        assert Owns(s, step.p, s.savers[step.p].phase.file);
      }
      if step.Write? {
        assert Owns(s, step.p, s.savers[step.p].phase.file)
            && Links(s, s.savers[step.p].phase.temp, s.savers[step.p].phase.file);
      }
      forall name | Links(n, name, file)
        ensures name == n.savers[p].phase.temp
      {
        assert Links(s, name, file);
      }
    }
  }

  lemma UpToDateStep(format: Format, s: State, step: Step, key: string)
    requires Ordered(format, s) && Can(format, s, step) && Regular(s, step)
    requires UpToDate(format, s, key) && NoCollision(format, s, key)
    ensures UpToDate(format, After(format, s, step), key)
  {
    var n := After(format, s, step);
    var name := format.filename(key);
    if step.Rename? {
      var p := step.p;
      assert Owns(s, p, s.savers[p].phase.file) && UsesTemp(s, p, s.savers[p].phase.temp);
      assert Links(s, s.savers[p].phase.temp, s.savers[p].phase.file);
      if s.savers[p].key == key {
        assert Links(n, name, s.savers[p].phase.file)
            && Complete(format, n, s.savers[p].phase.file, key, n.latest[key]);
        return;
      }
      assert (s.savers[p].key, s.savers[p].domain) in s.asked;
      assert format.filename(s.savers[p].key) != name;
    }
    if step.Clean? {
      assert UsesTemp(s, step.p, s.savers[step.p].phase.temp);
    }
    if key in s.latest {
      var file :| Links(s, name, file) && Complete(format, s, file, key, s.latest[key]);
      if step.Write? || step.Sync? {
        assert Owns(s, step.p, s.savers[step.p].phase.file);
        assert UsesTemp(s, step.p, s.savers[step.p].phase.temp);
      }
      assert Links(n, name, file) && Complete(format, n, file, key, n.latest[key]);
    }
  }

  lemma {:induction false} OrderedThroughout(format: Format, run: Run, i: nat, key: string)
    requires run.Valid(format) && i < |run.states|
    requires forall j :: 0 <= j < i ==> Regular(run.states[j], run.steps[j])
    requires NoCollision(format, run.states[i], key)
    ensures Ordered(format, run.states[i]) && UpToDate(format, run.states[i], key)
  {
    if i > 0 {
      assert run.Follows(format, i - 1);
      var s, step := run.states[i - 1], run.steps[i - 1];
      assert s.asked <= run.states[i].asked;
      OrderedThroughout(format, run, i - 1, key);
      FilesHonestStep(format, s, step);
      SaversHonestStep(format, s, step);
      TempsStep(format, s, step);
      FilesStep(format, s, step);
      UpToDateStep(format, s, step, key);
    }
  }

  /** In a regular run, a key whose file name no other saved key shares loads the domain of its own latest completed
      rename, whatever savers of other keys do in between and wherever savers die; before the first one,
      the legacy entry or nothing. */
  lemma LoadIsLatest(format: Format, run: Run, i: nat, key: string)
    requires IsCodec(format) && run.Valid(format) && i < |run.states|
    requires forall j :: 0 <= j < i ==> Regular(run.states[j], run.steps[j])
    requires NoCollision(format, run.states[i], key)
    ensures var s := run.states[i];
            Load(format, s.disk, key) ==
            if key in s.latest then s.latest[key] else if key in s.disk.legacy then s.disk.legacy[key] else ""
  {
    OrderedThroughout(format, run, i, key);
    var s := run.states[i];
    if key in s.latest {
      assert format.decode(format.encode(key, s.latest[key])) == Some((key, s.latest[key]));
    }
  }

  // ---------------------------------------------------------------- one call on its own

  /** What goes wrong in one call; `Exists` is a rename that does not replace, with the outcome of the two steps
      after it. */
  datatype Fault =
    | NoFault | CreateFails | WriteFails(written: nat) | CloseFails | RenameFails
    | Exists(removeFails: bool, retryFails: bool)

  class Directory {
    const format: Format
    const legacy: map<string, string>
    var dir: map<string, int>
    var data: map<int, string>

    constructor (format: Format, legacy: map<string, string>)
      requires IsCodec(format)
      ensures Valid() && this.format == format && this.legacy == legacy && dir == map[] && data == map[]
    {
      this.format, this.legacy := format, legacy;
      dir, data := map[], map[];
    }

    ghost predicate Valid()
      reads this
    {
      IsCodec(format) && forall name :: name in dir ==> dir[name] in data
    }

    method LoadDomainAt(key: string) returns (domain: string)
      requires Valid()
      ensures domain == Load(format, Disk(dir, data, map[], legacy, map[], {}), key)
    {
      var name := format.filename(key);
      if name in dir {
        var saved := format.decode(data[dir[name]]);
        if saved.Some? && saved.value.0 == key {
          return saved.value.1;
        }
      }
      domain := if key in legacy then legacy[key] else "";
    }

    /** `temp` and `file` are the fresh name and file that creating a temporary file yields. */
    method SaveDomainAt(key: string, domain: string, temp: string, file: int, fault: Fault) returns (ok: bool)
      requires Valid() && temp !in dir && file !in data && temp != format.filename(key)
      modifies this
      ensures Valid() && data - {file} == old(data)
      ensures ok <==>
                || fault.NoFault?
                || (fault.Exists? && (format.filename(key) !in old(dir) || (!fault.removeFails && !fault.retryFails)))
      ensures ok ==>
                && dir == old(dir)[format.filename(key) := file] && file in data
                && data[file] == format.encode(key, domain)
      ensures !ok ==> dir == if fault.Exists? && !fault.removeFails then old(dir) - {format.filename(key)} else old(dir)
    {
      if fault.CreateFails? {
        return false;
      }
      var text, target := format.encode(key, domain), format.filename(key);
      Create(temp, file);
      if fault.WriteFails? {
        Write(file, if fault.written <= |text| then text[..fault.written] else text);
        Remove(temp);
        return false;
      }
      Write(file, text);
      if fault.CloseFails? || fault.RenameFails? {
        Remove(temp);
        return false;
      }
      if fault.Exists? && target in dir {
        if fault.removeFails {
          Remove(temp);
          assert dir == old(dir);
          return false;
        }
        Remove(target);
        if fault.retryFails {
          Remove(temp);
          assert dir == old(dir) - {target};
          return false;
        }
      }
      Rename(temp, target);
      assert dir == old(dir)[target := file];
      ok := true;
    }

    method Create(name: string, file: int)
      requires name !in dir && file !in data
      modifies this
      ensures name in dir && dir[name] == file && dir - {name} == old(dir)
      ensures data.Keys == old(data).Keys + {file} && data - {file} == old(data)
    {
      dir, data := dir[name := file], data[file := ""];
    }

    method Write(file: int, text: string)
      requires file in data
      modifies this`data
      ensures data.Keys == old(data).Keys && data[file] == text && data - {file} == old(data) - {file}
    {
      data := data[file := text];
    }

    method Remove(name: string)
      modifies this`dir
      ensures dir == old(dir) - {name}
    {
      dir := dir - {name};
    }

    method Rename(from: string, to: string)
      requires from in dir
      modifies this`dir
      ensures dir == (old(dir) - {from})[to := old(dir)[from]]
    {
      dir := (dir - {from})[to := dir[from]];
    }
  }

  /** What a successful save does to loads: its own key reads back the saved domain, keys with other file names
      are untouched, and a key whose file name collides falls back to its legacy entry. */
  lemma SaveRoundTrip(format: Format, before: Disk, after: Disk, key: string, domain: string, file: int, other: string)
    requires IsCodec(format) && before.legacy == after.legacy && file !in before.data
             && after.data - {file} == before.data
    requires forall name :: name in before.dir ==> before.dir[name] in before.data
    requires after.dir == before.dir[format.filename(key) := file] && file in after.data
             && after.data[file] == format.encode(key, domain)
    ensures Load(format, after, key) == domain
    ensures format.filename(other) != format.filename(key) ==> Load(format, after, other) == Load(format, before, other)
    ensures format.filename(other) == format.filename(key) && other != key ==>
              Load(format, after, other) == if other in after.legacy then after.legacy[other] else ""
  {
    assert format.decode(format.encode(key, domain)) == Some((key, domain));
    var name := format.filename(other);
    if name != format.filename(key) && name in before.dir {
      assert before.dir[name] in after.data - {file};
      assert (after.data - {file})[before.dir[name]] == before.data[before.dir[name]];
    }
  }
}

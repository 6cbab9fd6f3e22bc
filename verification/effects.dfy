/** The world a user resource converges: the files that exist, with their
    contents, and the log of external commands run so far.

    The external tools are not modelled internally. Each one is a `Command`
    whose success is decided by the `Host` oracle and whose effect on the files
    is fixed here (`Produces`). The command log doubles as the certificate
    authority's state: revocations and CRL regenerations are in it, and the
    uninterpreted validity check `cert_valid?` is a function of the whole world.
 */
module Effects {
  import opened Names

  /** A file, as the directory it lives in and its name there. */
  datatype Path = Path(dir: string, name: Name)

  /** The certificate fields handed to the easy-rsa tools. */
  datatype KeyParams = KeyParams(
    caExpire: string, expire: string, size: string, country: string,
    province: string, city: string, org: string, email: string)

  /** The environment `pkitool` runs with: `EASY_RSA`, `KEY_CONFIG`,
      `KEY_DIR` and the `KEY_*` / `CA_EXPIRE` certificate fields. */
  datatype IssueEnv = IssueEnv(easyRsa: string, keyConfig: string, keyDir: string, params: KeyParams)

  /** The environment of the revoke command: `KEY_CN`, `KEY_OU`, `KEY_NAME`
      and `KEY_ALTNAMES`. */
  datatype SubjectEnv = SubjectEnv(keyCn: string, keyOu: string, keyName: string, keyAltnames: string)

  datatype Command =
    /** `./pkitool <id>`, run in the easy-rsa directory with `env`. */
    | Pkitool(id: string, env: IssueEnv)
    /** `tar zcf <archive> <members>`, run in `cwd`. */
    | Tar(cwd: string, archive: Name, members: seq<Name>)
    /** `openssl ca -revoke <cert> -config <config>`, with `subject`. */
    | Revoke(cert: Path, config: string, subject: SubjectEnv)
    /** The cookbook's CRL regeneration command. */
    | GenCrl

  datatype World = World(files: map<Path, string>, ran: seq<Command>)

  /** Everything the resources consult but cannot see into. */
  datatype Host = Host(
    /** `cert_valid?(key_dir, cert_file_name)` */
    certValid: (World, string, Name) -> bool,
    /** whether a command exits with status zero */
    succeeds: (World, Command) -> bool,
    /** the contents a command leaves in one of the files it produces */
    output: (World, Path) -> string,
    /** the text an ERB template renders to under some variables */
    render: (string, map<string, string>) -> string)

  datatype Error =
    | CommandFailed(command: Command)
    | StillValid(cert: Path)
    | Unreadable(path: Path)

  /** What an action leaves behind: nothing is rolled back on an abort. */
  datatype Outcome = Done(world: World) | Aborted(world: World, error: Error)

  datatype Result<T> = Success(value: T) | Failure(error: Error)

  datatype Option<T> = None | Some(value: T)

  const EasyRsa: string := "/etc/openvpn/easy-rsa"
  const KeyConfig: string := "/etc/openvpn/easy-rsa/openssl.cnf"

  /** The environment both user resources give `pkitool`. */
  function PkitoolEnv(keyDir: string, p: KeyParams): IssueEnv
  {
    IssueEnv(EasyRsa, KeyConfig, keyDir, p)
  }

  /** The files a command creates or overwrites when it succeeds:
      `pkitool` writes the certificate, key and request into `$KEY_DIR`,
      `tar` writes the archive into its working directory. */
  function Produces(cmd: Command): set<Path>
  {
    match cmd
    case Pkitool(id, env) => {Path(env.keyDir, Name(id, Crt)), Path(env.keyDir, Name(id, Key)), Path(env.keyDir, Name(id, Csr))}
    case Tar(cwd, archive, _) => {Path(cwd, archive)}
    case Revoke(_, _, _) => {}
    case GenCrl => {}
  }

  /** Whether a command exits with status zero. Besides the host's verdict,
      `tar` fails on a member that is missing from its working directory. */
  predicate Succeeds(host: Host, w: World, cmd: Command)
  {
    && host.succeeds(w, cmd)
    && match cmd
       case Pkitool(_, _) => true
       case Tar(cwd, _, members) => forall i :: 0 <= i < |members| ==> Path(cwd, members[i]) in w.files
       case Revoke(_, _, _) => true
       case GenCrl => true
  }

  /** Whether a file was created, deleted or rewritten between two worlds. */
  predicate Differs(w: World, w': World, p: Path)
  {
    (p in w.files <==> p !in w'.files) || (p in w.files && p in w'.files && w.files[p] != w'.files[p])
  }

  /** Only files in `s` differ between the two worlds. */
  ghost predicate OnlyTouches(w: World, w': World, s: set<Path>)
  {
    forall p {:trigger Differs(w, w', p)} :: Differs(w, w', p) ==> p in s
  }

  lemma OnlyTouchesTrans(w1: World, w2: World, w3: World, s: set<Path>, t: set<Path>)
    requires OnlyTouches(w1, w2, s) && OnlyTouches(w2, w3, t)
    ensures OnlyTouches(w1, w3, s + t)
  {
    forall p | Differs(w1, w3, p)
      ensures p in s + t
    {
      if !Differs(w1, w2, p) {
        assert Differs(w2, w3, p);
      }
    }
  }

  lemma OnlyTouchesWiden(w: World, w': World, s: set<Path>, t: set<Path>)
    requires OnlyTouches(w, w', s) && s <= t
    ensures OnlyTouches(w, w', t)
  {
    forall p | Differs(w, w', p)
      ensures p in t
    {
    }
  }

  /** Outside the files it may touch, a change leaves the world as it was. */
  lemma OnlyTouchesMinus(w: World, w': World, s: set<Path>)
    requires OnlyTouches(w, w', s)
    ensures w'.files - s == w.files - s
  {
    forall p | p !in s
      ensures (p in w'.files <==> p in w.files) && (p in w.files ==> w'.files[p] == w.files[p])
    {
      assert !Differs(w, w', p);
    }
  }

  /** The world after a command that succeeded. */
  function Apply(host: Host, w: World, cmd: Command): (r: World)
    ensures r.ran == w.ran + [cmd]
    ensures r.files.Keys == w.files.Keys + Produces(cmd)
    ensures OnlyTouches(w, r, Produces(cmd))
  {
    var made := Produces(cmd);
    World(map p | p in w.files.Keys + made :: if p in made then host.output(w, p) else w.files[p],
          w.ran + [cmd])
  }

  /** A Chef `execute` resource whose guard let it run: the command is logged
      whether or not it succeeds, and a non-zero exit aborts the run. */
  function Execute(host: Host, w: World, cmd: Command): (o: Outcome)
    ensures o.world.ran == w.ran + [cmd]
    ensures o.Done? <==> Succeeds(host, w, cmd)
    ensures o.Done? ==> o.world.files.Keys == w.files.Keys + Produces(cmd)
    ensures OnlyTouches(w, o.world, Produces(cmd))
    ensures o.Aborted? ==> o.world.files == w.files && o.error == CommandFailed(cmd)
  {
    if Succeeds(host, w, cmd) then Done(Apply(host, w, cmd))
    else Aborted(w.(ran := w.ran + [cmd]), CommandFailed(cmd))
  }

  /** The commands run between two worlds of one run. */
  function Since(w: World, w': World): seq<Command>
    requires w.ran <= w'.ran
  {
    w'.ran[|w.ran|..]
  }

  lemma SinceIs(w: World, w': World, t: seq<Command>)
    requires w'.ran == w.ran + t
    ensures w.ran <= w'.ran && Since(w, w') == t
  {
  }

  /** Whether a Chef `template` resource counts as updated: the file is
      missing or holds other contents. */
  predicate Changes(w: World, p: Path, content: string)
  {
    p !in w.files || w.files[p] != content
  }

  function WriteFile(w: World, p: Path, content: string): (r: World)
    ensures p in r.files && r.files[p] == content
    ensures w.files.Keys <= r.files.Keys
    ensures OnlyTouches(w, r, {p})
    ensures r.ran == w.ran
    ensures !Changes(w, p, content) ==> r == w
  {
    w.(files := w.files[p := content])
  }

  /** A Chef `file` resource with `action :delete`: a missing file is not an error. */
  function DeleteFile(w: World, p: Path): (r: World)
    ensures p !in r.files
    ensures OnlyTouches(w, r, {p})
    ensures r.ran == w.ran
  {
    w.(files := w.files - {p})
  }

  function Elems(ps: seq<Path>): set<Path>
  {
    set i | 0 <= i < |ps| :: ps[i]
  }

  /** Deleting a list of files one after the other removes exactly those files. */
  function DeleteFiles(w: World, ps: seq<Path>): (r: World)
    ensures r.files == w.files - Elems(ps)
    ensures r.ran == w.ran
    decreases |ps|
  {
    if ps == [] then w
    else
      var w1 := DeleteFile(w, ps[0]);
      assert w1.files == w.files - {ps[0]};
      var r := DeleteFiles(w1, ps[1..]);
      assert Elems(ps) == {ps[0]} + Elems(ps[1..]) by {
        forall p | p in Elems(ps) ensures p in {ps[0]} + Elems(ps[1..]) {
          var i :| 0 <= i < |ps| && ps[i] == p;
          if i > 0 { assert ps[1..][i - 1] == p; }
        }
      }
      r
  }

  /** A search-driven batch: the action runs per id in order, and the first
      abort ends the whole run, so later ids are not processed. An empty
      search completes at once; an aborted batch ends with the abort of the
      step for one of its ids. */
  function Batch(step: (string, World) -> Outcome, ids: seq<string>, w: World): (o: Outcome)
    ensures ids == [] ==> o == Done(w)
    ensures o.Aborted? ==> exists i, v :: 0 <= i < |ids| && step(ids[i], v) == o
    decreases |ids|
  {
    if ids == [] then Done(w)
    else
      var o := step(ids[0], w);
      if o.Done? then
        var o' := Batch(step, ids[1..], o.world);
        assert o'.Aborted? ==> exists i, v :: 0 <= i < |ids| && step(ids[i], v) == o' by {
          if o'.Aborted? {
            var j, v :| 0 <= j < |ids[1..]| && step(ids[1..][j], v) == o';
            assert ids[1..][j] == ids[j + 1];
          }
        }
        o'
      else o
  }

  /** Running a batch over `a + b` is running it over `a` and, only if that
      completed, over `b` from where it stopped. */
  lemma {:induction false} BatchAppend(step: (string, World) -> Outcome, a: seq<string>, b: seq<string>, w: World)
    ensures var o := Batch(step, a, w);
            Batch(step, a + b, w) == if o.Done? then Batch(step, b, o.world) else o
    decreases |a|
  {
    if a != [] {
      assert (a + b)[0] == a[0];
      assert (a + b)[1..] == a[1..] + b;
      var o := step(a[0], w);
      if o.Done? {
        BatchAppend(step, a[1..], b, o.world);
      }
    } else {
      assert a + b == b;
    }
  }
}

/** The single-client `openvpn_user` resource: `:create` issues one client's
    certificate, renders its profile(s) and archives them; `:delete` removes
    the profiles and, when bundling, the archive.

    Key material always lives in `key_dir`; the profiles and the archive live
    in the destination directory, which is `destination` when it is given and
    `key_dir` otherwise.
 */
module ClientUser {
  import opened Names
  import opened Effects
  import Merge
  import LegacyUsers

  /** The node attributes the resource reads. */
  datatype Node = Node(keyDir: string, clientPrefix: string, params: KeyParams)

  /** The properties of one resource. `force` is nil, hence false, unless set. */
  datatype Client = Client(
    name: string, createBundle: bool, force: bool,
    destination: Option<string>, additionalVars: map<string, string>)

  const PlainTemplate: string := "client.conf.erb"
  const InlineTemplate: string := "client-inline.conf.erb"

  /** `File.expand_path`, taken as the identity: directories are assumed to
      be given in normalised, absolute form. */
  function ExpandPath(dir: string): string
  {
    dir
  }

  /** `destination || key_dir`, expanded. */
  function DestinationPath(n: Node, c: Client): string
  {
    ExpandPath(match c.destination case Some(d) => d case None => n.keyDir)
  }

  function ClientBase(n: Node, c: Client): string { Base(n.clientPrefix, c.name) }

  function CaCertPath(n: Node): Path { Path(n.keyDir, CaCrt) }
  function CertPath(n: Node, c: Client): Path { Path(n.keyDir, Name(c.name, Crt)) }
  function KeyPath(n: Node, c: Client): Path { Path(n.keyDir, Name(c.name, Key)) }
  function CsrPath(n: Node, c: Client): Path { Path(n.keyDir, Name(c.name, Csr)) }
  function BundlePath(n: Node, c: Client): Path { Path(DestinationPath(n, c), Name(c.name, TarGz)) }
  function ConfPath(n: Node, c: Client): Path { Path(DestinationPath(n, c), Name(ClientBase(n, c), Conf)) }
  function OvpnPath(n: Node, c: Client): Path { Path(DestinationPath(n, c), Name(ClientBase(n, c), Ovpn)) }

  /** The client's files in `key_dir` and in the destination are told apart
      by their extensions. */
  lemma PathsDistinct(n: Node, c: Client)
    ensures ConfPath(n, c) !in KeyMaterial(n, c) && OvpnPath(n, c) !in KeyMaterial(n, c) && BundlePath(n, c) !in KeyMaterial(n, c)
    ensures CertPath(n, c) !in Outputs(n, c) && CaCertPath(n) !in Outputs(n, c) && KeyPath(n, c) !in Outputs(n, c)
    ensures ConfPath(n, c) != OvpnPath(n, c) && ConfPath(n, c) != BundlePath(n, c) && OvpnPath(n, c) != BundlePath(n, c)
  {
  }

  /** What `pkitool` writes for the client. */
  function KeyMaterial(n: Node, c: Client): set<Path>
  {
    {CertPath(n, c), KeyPath(n, c), CsrPath(n, c)}
  }

  /** What the resource writes or deletes in the destination directory. */
  function Outputs(n: Node, c: Client): set<Path>
  {
    {ConfPath(n, c), OvpnPath(n, c), BundlePath(n, c)}
  }

  function IssueCommand(n: Node, c: Client): Command
  {
    Pkitool(c.name, PkitoolEnv(n.keyDir, n.params))
  }

  /** The archive members, relative to the destination directory. */
  function Members(n: Node, c: Client): seq<Name>
  {
    [CaCrt, Name(c.name, Crt), Name(c.name, Key), Name(ClientBase(n, c), Ovpn)]
    + if c.createBundle then [Name(ClientBase(n, c), Conf)] else []
  }

  function TarCommand(n: Node, c: Client): Command
  {
    Tar(DestinationPath(n, c), Name(c.name, TarGz), Members(n, c))
  }

  function PlainVars(c: Client): map<string, string>
  {
    map["client_cn" := c.name]
  }

  function PlainProfile(host: Host, c: Client): string
  {
    host.render(PlainTemplate, PlainVars(c))
  }

  function OvpnTemplate(c: Client): string
  {
    if c.createBundle then PlainTemplate else InlineTemplate
  }

  /** The `.ovpn` variables. Without a bundle they embed the CA certificate,
      the client certificate and the key, read in that order when the template
      is converged; a missing file aborts the run. */
  function OvpnVars(n: Node, c: Client, w: World): (r: Result<map<string, string>>)
    ensures c.createBundle ==> r == Success(PlainVars(c))
    ensures !c.createBundle ==>
              (r.Success? <==> CaCertPath(n) in w.files && CertPath(n, c) in w.files && KeyPath(n, c) in w.files)
    ensures !c.createBundle && r.Success? ==>
              && r.value.Keys == {"client_cn", "ca", "cert", "key"} + c.additionalVars.Keys
              && r.value["client_cn"] == c.name
              && r.value["ca"] == w.files[CaCertPath(n)]
              && r.value["cert"] == w.files[CertPath(n, c)]
              && r.value["key"] == w.files[KeyPath(n, c)]
              && forall k :: k in c.additionalVars && k !in {"client_cn", "ca", "cert", "key"} ==>
                               r.value[k] == c.additionalVars[k]
    ensures r.Failure? ==> r.error.Unreadable? && r.error.path !in w.files
                           && r.error.path in {CaCertPath(n), CertPath(n, c), KeyPath(n, c)}
  {
    if c.createBundle then Success(PlainVars(c))
    else if CaCertPath(n) !in w.files then Failure(Unreadable(CaCertPath(n)))
    else if CertPath(n, c) !in w.files then Failure(Unreadable(CertPath(n, c)))
    else if KeyPath(n, c) !in w.files then Failure(Unreadable(KeyPath(n, c)))
    else
      Success(Merge.InlineVars(c.name, w.files[CaCertPath(n)], w.files[CertPath(n, c)],
                               w.files[KeyPath(n, c)], c.additionalVars))
  }

  /** The `.ovpn` variables depend only on the three files they read. */
  lemma OvpnVarsFrame(n: Node, c: Client, w: World, w': World)
    requires !Differs(w, w', CaCertPath(n)) && !Differs(w, w', CertPath(n, c)) && !Differs(w, w', KeyPath(n, c))
    ensures OvpnVars(n, c, w) == OvpnVars(n, c, w')
  {
  }

  /** The state `:create` drives the client to. */
  predicate Converged(host: Host, n: Node, c: Client, w: World)
  {
    && CertPath(n, c) in w.files
    && BundlePath(n, c) in w.files
    && ProfilesRendered(host, n, c, w)
  }

  /** Whether a profile was created, deleted or rewritten between two worlds. */
  predicate ProfileChanged(n: Node, c: Client, w: World, w': World)
  {
    Differs(w, w', ConfPath(n, c)) || Differs(w, w', OvpnPath(n, c))
  }

  // ---------------------------------------------------------------- :create

  /** The commands issuance runs: none when the certificate exists and
      `force` is not set. */
  function IssueTrace(n: Node, c: Client, w: World): seq<Command>
  {
    if !c.force && CertPath(n, c) in w.files then [] else [IssueCommand(n, c)]
  }

  /** `execute generate-openvpn-<name>`, guarded by `creates cert_path` unless forced. */
  function Issue(host: Host, n: Node, c: Client, w: World): (o: Outcome)
    ensures o.world.ran == w.ran + IssueTrace(n, c, w)
    ensures o.Done? ==> CertPath(n, c) in o.world.files
    ensures OnlyTouches(w, o.world, KeyMaterial(n, c))
  {
    if !c.force && CertPath(n, c) in w.files then Done(w)
    else Execute(host, w, IssueCommand(n, c))
  }

  /** A profile `template` resource that notifies the bundle cleanup: the
      archive is deleted exactly when rendering changed the profile. */
  function RenderProfile(w: World, p: Path, content: string, bundle: Path): (w': World)
    requires p != bundle
    ensures w'.ran == w.ran
    ensures p in w'.files && w'.files[p] == content
    ensures bundle in w'.files <==> bundle in w.files && !Changes(w, p, content)
    ensures Changes(w, p, content) <==> Differs(w, w', p)
    ensures OnlyTouches(w, w', {p, bundle})
    ensures !Changes(w, p, content) ==> w' == w
  {
    var w1 := WriteFile(w, p, content);
    if Changes(w, p, content) then
      var w2 := DeleteFile(w1, bundle);
      OnlyTouchesTrans(w, w1, w2, {p}, {bundle});
      w2
    else w1
  }

  /** The `.conf` template, converged only when bundling. */
  function RenderConf(host: Host, n: Node, c: Client, w: World): (w': World)
    ensures w'.ran == w.ran
    ensures !c.createBundle ==> w' == w
    ensures c.createBundle ==> ConfPath(n, c) in w'.files && w'.files[ConfPath(n, c)] == PlainProfile(host, c)
    ensures BundlePath(n, c) in w'.files <==> BundlePath(n, c) in w.files && !Differs(w, w', ConfPath(n, c))
    ensures OnlyTouches(w, w', {ConfPath(n, c), BundlePath(n, c)})
  {
    if !c.createBundle then w
    else RenderProfile(w, ConfPath(n, c), PlainProfile(host, c), BundlePath(n, c))
  }

  /** The `.ovpn` template: the plain template when bundling, the inline one
      otherwise. */
  function RenderOvpn(host: Host, n: Node, c: Client, w: World): (o: Outcome)
    ensures o.world.ran == w.ran
    ensures o.Done? <==> OvpnVars(n, c, w).Success?
    ensures o.Aborted? ==> o.world == w && o.error == OvpnVars(n, c, w).error
    ensures o.Done? ==>
              && OvpnPath(n, c) in o.world.files
              && o.world.files[OvpnPath(n, c)] == host.render(OvpnTemplate(c), OvpnVars(n, c, w).value)
              && (BundlePath(n, c) in o.world.files <==> BundlePath(n, c) in w.files && !Differs(w, o.world, OvpnPath(n, c)))
    ensures OnlyTouches(w, o.world, {OvpnPath(n, c), BundlePath(n, c)})
  {
    match OvpnVars(n, c, w)
    case Failure(e) => Aborted(w, e)
    case Success(vars) => Done(RenderProfile(w, OvpnPath(n, c), host.render(OvpnTemplate(c), vars), BundlePath(n, c)))
  }

  /** Everything `:create` does before the archive: issue, then render the
      profiles. */
  function Prepare(host: Host, n: Node, c: Client, w: World): (o: Outcome)
    ensures o.world.ran == w.ran + IssueTrace(n, c, w)
    ensures OnlyTouches(w, o.world, KeyMaterial(n, c) + Outputs(n, c))
  {
    var o1 := Issue(host, n, c, w);
    if o1.Aborted? then
      OnlyTouchesWiden(w, o1.world, KeyMaterial(n, c), KeyMaterial(n, c) + Outputs(n, c));
      o1
    else
      var w2 := RenderConf(host, n, c, o1.world);
      var o3 := RenderOvpn(host, n, c, w2);
      OnlyTouchesTrans(w, o1.world, w2, KeyMaterial(n, c), {ConfPath(n, c), BundlePath(n, c)});
      OnlyTouchesTrans(w, w2, o3.world, KeyMaterial(n, c) + {ConfPath(n, c), BundlePath(n, c)}, {OvpnPath(n, c), BundlePath(n, c)});
      OnlyTouchesWiden(w, o3.world, KeyMaterial(n, c) + {ConfPath(n, c), BundlePath(n, c)} + {OvpnPath(n, c), BundlePath(n, c)},
                       KeyMaterial(n, c) + Outputs(n, c));
      o3
  }

  /** The profiles as `:create` renders them: the `.conf` when bundling, and
      the `.ovpn` from the variables the world yields. */
  predicate ProfilesRendered(host: Host, n: Node, c: Client, w: World)
  {
    && (c.createBundle ==> ConfPath(n, c) in w.files && w.files[ConfPath(n, c)] == PlainProfile(host, c))
    && OvpnVars(n, c, w).Success?
    && OvpnPath(n, c) in w.files
    && w.files[OvpnPath(n, c)] == host.render(OvpnTemplate(c), OvpnVars(n, c, w).value)
  }

  /** When the steps before the archive complete, the certificate exists, the
      profiles are rendered, and the archive survives exactly when it existed
      and no profile changed. */
  lemma PrepareRenders(host: Host, n: Node, c: Client, w: World)
    ensures var o := Prepare(host, n, c, w);
            o.Done? ==>
              && CertPath(n, c) in o.world.files
              && ProfilesRendered(host, n, c, o.world)
              && (BundlePath(n, c) in o.world.files <==> BundlePath(n, c) in w.files && !ProfileChanged(n, c, w, o.world))
  {
    PathsDistinct(n, c);
    var o1 := Issue(host, n, c, w);
    if o1.Done? {
      var w1 := o1.world;
      var w2 := RenderConf(host, n, c, w1);
      var o3 := RenderOvpn(host, n, c, w2);
      if o3.Done? {
        var w3 := o3.world;
        assert !Differs(w, w1, ConfPath(n, c)) && !Differs(w, w1, OvpnPath(n, c)) && !Differs(w, w1, BundlePath(n, c));
        assert !Differs(w1, w2, OvpnPath(n, c)) && !Differs(w2, w3, ConfPath(n, c));
        assert !Differs(w1, w2, CertPath(n, c)) && !Differs(w2, w3, CertPath(n, c));
        assert !Differs(w2, w3, CaCertPath(n)) && !Differs(w2, w3, KeyPath(n, c));
        OvpnVarsFrame(n, c, w2, w3);
      }
    }
  }

  /** The commands the archive step runs: none when the archive exists and
      `force` is not set. */
  function ArchiveTrace(n: Node, c: Client, w: World): seq<Command>
  {
    if !c.force && BundlePath(n, c) in w.files then [] else [TarCommand(n, c)]
  }

  /** `execute create-openvpn-tar-<name>`, guarded by `creates bundle_full_path` unless forced. */
  function Archive(host: Host, n: Node, c: Client, w: World): (o: Outcome)
    ensures o.world.ran == w.ran + ArchiveTrace(n, c, w)
    ensures o.Done? ==> BundlePath(n, c) in o.world.files
    ensures OnlyTouches(w, o.world, {BundlePath(n, c)})
  {
    if !c.force && BundlePath(n, c) in w.files then Done(w)
    else Execute(host, w, TarCommand(n, c))
  }

  /** `:create`. It only ever touches the client's key material in `key_dir`
      and its profiles and archive in the destination directory, and when it
      completes the client is converged. */
  function Create(host: Host, n: Node, c: Client, w: World): (o: Outcome)
    ensures w.ran <= o.world.ran
    ensures OnlyTouches(w, o.world, KeyMaterial(n, c) + Outputs(n, c))
  {
    var o1 := Prepare(host, n, c, w);
    if o1.Aborted? then o1
    else
      var o2 := Archive(host, n, c, o1.world);
      OnlyTouchesTrans(w, o1.world, o2.world, KeyMaterial(n, c) + Outputs(n, c), {BundlePath(n, c)});
      o2
  }

  /** A `:create` that completes leaves the client converged. */
  lemma CreateConverges(host: Host, n: Node, c: Client, w: World)
    ensures var o := Create(host, n, c, w);
            o.Done? ==> Converged(host, n, c, o.world)
  {
    PathsDistinct(n, c);
    var o1 := Prepare(host, n, c, w);
    PrepareRenders(host, n, c, w);
    if o1.Done? {
      var w1 := o1.world;
      var w2 := Archive(host, n, c, w1).world;
      assert !Differs(w1, w2, ConfPath(n, c)) && !Differs(w1, w2, OvpnPath(n, c));
      assert !Differs(w1, w2, CertPath(n, c)) && !Differs(w1, w2, CaCertPath(n));
      assert !Differs(w1, w2, KeyPath(n, c));
      OvpnVarsFrame(n, c, w1, w2);
    }
  }

  /** The commands `:create` runs: issuance when forced or the certificate
      is missing, then, once the profiles rendered, the archive when forced
      or when it is missing at that point. */
  lemma CreateCommands(host: Host, n: Node, c: Client, w: World)
    ensures var o1 := Prepare(host, n, c, w);
            Since(w, Create(host, n, c, w).world) ==
              IssueTrace(n, c, w) + if o1.Done? then ArchiveTrace(n, c, o1.world) else []
  {
    var o1 := Prepare(host, n, c, w);
    if o1.Done? {
      SinceIs(w, Create(host, n, c, w).world, IssueTrace(n, c, w) + ArchiveTrace(n, c, o1.world));
    } else {
      SinceIs(w, Create(host, n, c, w).world, IssueTrace(n, c, w));
    }
  }

  // ---------------------------------------------------------------- :delete

  /** `:delete`: the two profiles, each followed by the archive when bundling
      (the second archive deletion finds nothing left to do). */
  function Delete(n: Node, c: Client, w: World): (w': World)
    ensures w'.ran == w.ran
    ensures w'.files == w.files - {ConfPath(n, c), OvpnPath(n, c)} - (if c.createBundle then {BundlePath(n, c)} else {})
  {
    var steps := if c.createBundle
                 then [ConfPath(n, c), BundlePath(n, c), OvpnPath(n, c), BundlePath(n, c)]
                 else [ConfPath(n, c), OvpnPath(n, c)];
    var w' := DeleteFiles(w, steps);
    assert Elems(steps) == {ConfPath(n, c), OvpnPath(n, c)} + (if c.createBundle then {BundlePath(n, c)} else {}) by {
      assert steps[0] in Elems(steps) && steps[1] in Elems(steps);
      if c.createBundle { assert steps[2] in Elems(steps); }
    }
    w'
  }

  // ---------------------------------------------------------------- properties

  /** Issuance runs exactly when forced or when the certificate is absent. */
  lemma IssuesIffForcedOrAbsent(host: Host, n: Node, c: Client, w: World)
    ensures var o := Create(host, n, c, w);
            IssueCommand(n, c) in Since(w, o.world) <==> c.force || CertPath(n, c) !in w.files
  {
    CreateCommands(host, n, c, w);
    var o1 := Prepare(host, n, c, w);
    if o1.Done? {
      assert IssueCommand(n, c) !in ArchiveTrace(n, c, o1.world);
    }
  }

  /** In a completed `:create` the archive is rebuilt exactly when forced,
      when it was missing, or when a profile changed: a changed profile
      deletes the old archive, so no stale archive survives. */
  lemma ArchivesIffForcedMissingOrStale(host: Host, n: Node, c: Client, w: World)
    requires Create(host, n, c, w).Done?
    ensures var o := Create(host, n, c, w);
            TarCommand(n, c) in Since(w, o.world) <==>
              c.force || BundlePath(n, c) !in w.files || ProfileChanged(n, c, w, o.world)
  {
    CreateCommands(host, n, c, w);
    PrepareRenders(host, n, c, w);
    var w1 := Prepare(host, n, c, w).world;
    ArchiveKeepsProfiles(host, n, c, w, w1);
    TarRunsIff(n, c, w, w1);
  }

  /** The archive step leaves both profiles as they were. */
  lemma ArchiveKeepsProfiles(host: Host, n: Node, c: Client, w: World, w1: World)
    ensures var w2 := Archive(host, n, c, w1).world;
            ProfileChanged(n, c, w, w2) <==> ProfileChanged(n, c, w, w1)
  {
    PathsDistinct(n, c);
    var w2 := Archive(host, n, c, w1).world;
    assert !Differs(w1, w2, ConfPath(n, c)) && !Differs(w1, w2, OvpnPath(n, c));
  }

  lemma TarRunsIff(n: Node, c: Client, w: World, w1: World)
    ensures TarCommand(n, c) in IssueTrace(n, c, w) + ArchiveTrace(n, c, w1) <==> c.force || BundlePath(n, c) !in w1.files
  {
    assert TarCommand(n, c) !in IssueTrace(n, c, w);
  }

  /** On a converged client an unforced `:create` runs nothing and changes nothing. */
  lemma ConvergedIsFixpoint(host: Host, n: Node, c: Client, w: World)
    requires Converged(host, n, c, w) && !c.force
    ensures Create(host, n, c, w) == Done(w)
  {
    assert RenderConf(host, n, c, w) == w;
  }

  /** Without `force`, a second `:create` neither issues nor archives again,
      and changes nothing. */
  lemma CreateIdempotent(host: Host, n: Node, c: Client, w: World)
    requires !c.force && Create(host, n, c, w).Done?
    ensures var w' := Create(host, n, c, w).world;
            Create(host, n, c, w') == Done(w')
  {
    CreateConverges(host, n, c, w);
    ConvergedIsFixpoint(host, n, c, Create(host, n, c, w).world);
  }

  /** The `.conf` profile is written only when bundling: otherwise it is
      left exactly as it was. */
  lemma ConfOnlyWhenBundling(host: Host, n: Node, c: Client, w: World)
    ensures var o := Create(host, n, c, w);
            && (!c.createBundle ==> !Differs(w, o.world, ConfPath(n, c)))
            && (c.createBundle && o.Done? ==>
                  ConfPath(n, c) in o.world.files && o.world.files[ConfPath(n, c)] == PlainProfile(host, c))
  {
    if !c.createBundle {
      PathsDistinct(n, c);
      var o1 := Issue(host, n, c, w);
      assert !Differs(w, o1.world, ConfPath(n, c));
      if o1.Done? {
        var o3 := RenderOvpn(host, n, c, o1.world);
        assert !Differs(o1.world, o3.world, ConfPath(n, c));
        if o3.Done? {
          var o4 := Archive(host, n, c, o3.world);
          assert !Differs(o3.world, o4.world, ConfPath(n, c));
        }
      }
    }
  }

  /** The `.ovpn` profile renders the plain template when bundling and
      otherwise the inline one, with the CA certificate, the client
      certificate and the key that are on disk, and the additional
      variables under every other key. */
  lemma OvpnProfileContents(host: Host, n: Node, c: Client, w: World)
    requires Create(host, n, c, w).Done?
    ensures var f := Create(host, n, c, w).world.files;
            && OvpnPath(n, c) in f
            && (c.createBundle ==> f[OvpnPath(n, c)] == PlainProfile(host, c))
            && (!c.createBundle ==>
                  && CaCertPath(n) in f && CertPath(n, c) in f && KeyPath(n, c) in f
                  && f[OvpnPath(n, c)] == host.render(InlineTemplate,
                       Merge.InlineVars(c.name, f[CaCertPath(n)], f[CertPath(n, c)], f[KeyPath(n, c)], c.additionalVars)))
  {
    CreateConverges(host, n, c, w);
  }

  /** `:create` changes nothing but the client's certificate, key and request
      in `key_dir` and its profiles and archive in `destination`, or in
      `key_dir` when no destination is given. */
  lemma CreateWritesWhereItShould(host: Host, n: Node, c: Client, w: World)
    ensures var o := Create(host, n, c, w);
            var dest := if c.destination.Some? then c.destination.value else n.keyDir;
            forall p :: Differs(w, o.world, p) ==>
              || (p.dir == n.keyDir && p.name in {Name(c.name, Crt), Name(c.name, Key), Name(c.name, Csr)})
              || (p.dir == dest && p.name in {Name(ClientBase(n, c), Conf), Name(ClientBase(n, c), Ovpn), Name(c.name, TarGz)})
  {
    var o := Create(host, n, c, w);
    forall p | Differs(w, o.world, p)
      ensures || (p.dir == n.keyDir && p.name in {Name(c.name, Crt), Name(c.name, Key), Name(c.name, Csr)})
              || (p.dir == DestinationPath(n, c) && p.name in {Name(ClientBase(n, c), Conf), Name(ClientBase(n, c), Ovpn), Name(c.name, TarGz)})
    {
      assert p in KeyMaterial(n, c) + Outputs(n, c);
      FramePlaces(n, c, p);
    }
  }

  /** Where the files `:create` may touch live. */
  lemma FramePlaces(n: Node, c: Client, p: Path)
    requires p in KeyMaterial(n, c) + Outputs(n, c)
    ensures || (p.dir == n.keyDir && p.name in {Name(c.name, Crt), Name(c.name, Key), Name(c.name, Csr)})
            || (p.dir == DestinationPath(n, c) && p.name in {Name(ClientBase(n, c), Conf), Name(ClientBase(n, c), Ovpn), Name(c.name, TarGz)})
  {
  }

  /** The archive step runs in the destination directory with names relative
      to it, so with a separate destination that lacks `ca.crt` a `:create`
      that has to build the archive cannot complete. */
  lemma SeparateDestinationNeedsCaCert(host: Host, n: Node, c: Client, w: World)
    requires c.destination.Some? && c.destination.value != n.keyDir
    requires Path(c.destination.value, CaCrt) !in w.files
    ensures var o := Create(host, n, c, w);
            && (o.Done? ==> TarCommand(n, c) !in Since(w, o.world))
            && (BundlePath(n, c) !in w.files ==> o.Aborted?)
  {
    CreateCommands(host, n, c, w);
    var o1 := Prepare(host, n, c, w);
    if o1.Done? {
      PrepareRenders(host, n, c, w);
      CaCertOutsidePrepare(n, c);
      assert !Differs(w, o1.world, Path(DestinationPath(n, c), CaCrt));
      ArchiveNeedsCaCert(host, n, c, o1.world);
      TarRunsIff(n, c, w, o1.world);
    }
  }

  /** With a separate destination, its `ca.crt` is none of the files the
      steps before the archive touch. */
  lemma CaCertOutsidePrepare(n: Node, c: Client)
    requires c.destination.Some? && c.destination.value != n.keyDir
    ensures Path(DestinationPath(n, c), CaCrt) !in KeyMaterial(n, c) + Outputs(n, c)
  {
  }

  /** The archive step fails whenever `ca.crt` is missing from the
      destination directory. */
  lemma ArchiveNeedsCaCert(host: Host, n: Node, c: Client, w: World)
    requires Path(DestinationPath(n, c), CaCrt) !in w.files
    ensures Archive(host, n, c, w).Done? <==> ArchiveTrace(n, c, w) == []
  {
    assert Members(n, c)[0] == CaCrt;
  }

  /** The archive holds the CA certificate, the client certificate and key,
      and exactly the profiles `:create` renders; when bundling these are the
      same five files the batch resource archives, with the two profiles in
      the other order. */
  lemma MembersAreRenderedFiles(n: Node, c: Client)
    ensures Members(n, c)[..3] == [CaCrt, Name(c.name, Crt), Name(c.name, Key)]
    ensures Name(ClientBase(n, c), Ovpn) in Members(n, c)
    ensures Name(ClientBase(n, c), Conf) in Members(n, c) <==> c.createBundle
    ensures |Members(n, c)| == if c.createBundle then 5 else 4
    ensures c.createBundle ==>
              var legacy := LegacyUsers.Members(LegacyUsers.Resource(n.keyDir, n.clientPrefix, n.params), c.name);
              multiset(Members(n, c)) == multiset(legacy) && Members(n, c) != legacy
  {
    var conf, ovpn := Name(ClientBase(n, c), Conf), Name(ClientBase(n, c), Ovpn);
    if c.createBundle {
      var legacy := LegacyUsers.Members(LegacyUsers.Resource(n.keyDir, n.clientPrefix, n.params), c.name);
      assert Members(n, c) == [CaCrt, Name(c.name, Crt), Name(c.name, Key), ovpn, conf];
      assert legacy == [CaCrt, Name(c.name, Crt), Name(c.name, Key), conf, ovpn];
      assert Members(n, c)[3] != legacy[3];
    } else {
      assert Members(n, c) == [CaCrt, Name(c.name, Crt), Name(c.name, Key), ovpn];
    }
  }

  /** The members are distinct unless the client is called `ca`, whose
      certificate is then the CA certificate. */
  lemma MembersDistinct(n: Node, c: Client)
    ensures (forall i, j :: 0 <= i < j < |Members(n, c)| ==> Members(n, c)[i] != Members(n, c)[j]) <==> c.name != "ca"
  {
    if c.name == "ca" { assert Members(n, c)[0] == Members(n, c)[1]; }
  }

  /** Without bundling the archive is still built, from the inline profile
      and the key material, and a completed `:create` leaves it in place. */
  lemma ArchivesEvenWithoutBundling(host: Host, n: Node, c: Client, w: World)
    requires !c.createBundle && Create(host, n, c, w).Done?
    ensures BundlePath(n, c) in Create(host, n, c, w).world.files
    ensures Members(n, c) == [CaCrt, Name(c.name, Crt), Name(c.name, Key), Name(ClientBase(n, c), Ovpn)]
  {
    CreateConverges(host, n, c, w);
  }

  /** `:delete` after `:create` removes the profiles but leaves the
      certificate, and leaves the archive exactly when not bundling. */
  lemma DeleteAfterCreate(host: Host, n: Node, c: Client, w: World)
    requires Create(host, n, c, w).Done?
    ensures var f := Delete(n, c, Create(host, n, c, w).world).files;
            && ConfPath(n, c) !in f && OvpnPath(n, c) !in f
            && CertPath(n, c) in f
            && (BundlePath(n, c) in f <==> !c.createBundle)
  {
    CreateConverges(host, n, c, w);
    PathsDistinct(n, c);
  }
}

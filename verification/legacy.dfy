/** The batch `user` resource: `:create` issues, renders and archives the
    material of every client a search returns, `:remove` revokes every client
    another search returns and deletes its files. All files live in `key_dir`.

    The search itself is not modelled: the ids it returns, in order, are a
    parameter of the actions.
 */
module LegacyUsers {
  import opened Names
  import opened Effects

  /** The properties of the resource that the actions read. */
  datatype Resource = Resource(keyDir: string, clientPrefix: string, params: KeyParams)

  const ClientTemplate: string := "client.conf.erb"

  /** The revoke command blanks the subject fields. */
  const RevokeEnv: SubjectEnv := SubjectEnv("", "", "", "")

  function CertPath(r: Resource, id: string): Path { Path(r.keyDir, Name(id, Crt)) }
  function BundlePath(r: Resource, id: string): Path { Path(r.keyDir, Name(id, TarGz)) }
  function ConfPath(r: Resource, id: string): Path { Path(r.keyDir, Name(Base(r.clientPrefix, id), Conf)) }
  function OvpnPath(r: Resource, id: string): Path { Path(r.keyDir, Name(Base(r.clientPrefix, id), Ovpn)) }

  function IssueCommand(r: Resource, id: string): Command
  {
    Pkitool(id, PkitoolEnv(r.keyDir, r.params))
  }

  /** The archive members, relative to `key_dir`. */
  function Members(r: Resource, id: string): seq<Name>
  {
    [CaCrt, Name(id, Crt), Name(id, Key), Name(Base(r.clientPrefix, id), Conf), Name(Base(r.clientPrefix, id), Ovpn)]
  }

  function TarCommand(r: Resource, id: string): Command
  {
    Tar(r.keyDir, Name(id, TarGz), Members(r, id))
  }

  function RevokeCommand(r: Resource, id: string): Command
  {
    Revoke(CertPath(r, id), r.keyDir + "/openssl.cnf", RevokeEnv)
  }

  /** What `pkitool` writes for a client. */
  function KeyMaterial(r: Resource, id: string): set<Path>
  {
    {CertPath(r, id), Path(r.keyDir, Name(id, Key)), Path(r.keyDir, Name(id, Csr))}
  }

  /** The six files of a client that `:remove` deletes, as the set the frame
      proofs use; `Artifacts` lists them in deletion order. */
  function ArtifactSet(r: Resource, id: string): set<Path>
  {
    {BundlePath(r, id), CertPath(r, id), Path(r.keyDir, Name(id, Key)), Path(r.keyDir, Name(id, Csr)),
     ConfPath(r, id), OvpnPath(r, id)}
  }

  /** The same six files, in the order `:remove` deletes them: first the
      archive and the key material, then the two profiles, all in `key_dir`. */
  function Artifacts(r: Resource, id: string): (a: seq<Path>)
    ensures |a| == 6
    ensures forall i :: 0 <= i < |a| ==> a[i].dir == r.keyDir
    ensures forall i, j :: 0 <= i < j < |a| ==> a[i] != a[j]
    ensures a[0].name.ext == TarGz && a[1].name.ext == Crt && a[2].name.ext == Key && a[3].name.ext == Csr
    ensures a[4].name.ext == Conf && a[5].name.ext == Ovpn
    ensures forall i :: 0 <= i < 4 ==> a[i].name.stem == id
    ensures a[4].name.stem == Base(r.clientPrefix, id) && a[5].name.stem == Base(r.clientPrefix, id)
    ensures Elems(a) == ArtifactSet(r, id)
  {
    var a := [BundlePath(r, id), CertPath(r, id), Path(r.keyDir, Name(id, Key)), Path(r.keyDir, Name(id, Csr)),
              ConfPath(r, id), OvpnPath(r, id)];
    assert Elems(a) == ArtifactSet(r, id) by {
      assert a[0] in Elems(a) && a[1] in Elems(a) && a[2] in Elems(a);
      assert a[3] in Elems(a) && a[4] in Elems(a) && a[5] in Elems(a);
    }
    a
  }

  /** Both profiles render the same template with the same variables. */
  function Profile(host: Host, id: string): string
  {
    host.render(ClientTemplate, map["client_cn" := id])
  }

  /** The state `:create` drives a client to. */
  predicate Converged(host: Host, r: Resource, id: string, w: World)
  {
    && CertPath(r, id) in w.files
    && BundlePath(r, id) in w.files
    && ConfPath(r, id) in w.files && w.files[ConfPath(r, id)] == Profile(host, id)
    && OvpnPath(r, id) in w.files && w.files[OvpnPath(r, id)] == Profile(host, id)
  }

  // ---------------------------------------------------------------- :create

  /** `execute generate-openvpn-<id>`, guarded by `not_if` the certificate exists. */
  function Issue(host: Host, r: Resource, id: string, w: World): (o: Outcome)
    ensures o.world.ran == w.ran + if CertPath(r, id) in w.files then [] else [IssueCommand(r, id)]
    ensures o.Done? ==> CertPath(r, id) in o.world.files
    ensures w.files.Keys <= o.world.files.Keys
    ensures OnlyTouches(w, o.world, KeyMaterial(r, id))
  {
    if CertPath(r, id) in w.files then Done(w)
    else Execute(host, w, IssueCommand(r, id))
  }

  /** The two `template` resources for `<prefix>-<id>.conf` and `.ovpn`. */
  function RenderProfiles(host: Host, r: Resource, id: string, w: World): (w': World)
    ensures w'.ran == w.ran
    ensures ConfPath(r, id) in w'.files && w'.files[ConfPath(r, id)] == Profile(host, id)
    ensures OvpnPath(r, id) in w'.files && w'.files[OvpnPath(r, id)] == Profile(host, id)
    ensures w.files.Keys <= w'.files.Keys
    ensures OnlyTouches(w, w', {ConfPath(r, id), OvpnPath(r, id)})
  {
    var w1 := WriteFile(w, ConfPath(r, id), Profile(host, id));
    var w2 := WriteFile(w1, OvpnPath(r, id), Profile(host, id));
    OnlyTouchesTrans(w, w1, w2, {ConfPath(r, id)}, {OvpnPath(r, id)});
    assert !Differs(w1, w2, ConfPath(r, id));
    w2
  }

  /** `execute create-openvpn-tar-<id>`, guarded by `not_if` the archive exists. */
  function Archive(host: Host, r: Resource, id: string, w: World): (o: Outcome)
    ensures o.world.ran == w.ran + if BundlePath(r, id) in w.files then [] else [TarCommand(r, id)]
    ensures o.Done? ==> BundlePath(r, id) in o.world.files
    ensures w.files.Keys <= o.world.files.Keys
    ensures OnlyTouches(w, o.world, {BundlePath(r, id)})
  {
    if BundlePath(r, id) in w.files then Done(w)
    else Execute(host, w, TarCommand(r, id))
  }

  /** `:create` for one client. It only ever adds or rewrites the client's
      own six files, and when it completes the client is converged. */
  function CreateUser(host: Host, r: Resource, id: string, w: World): (o: Outcome)
    ensures w.ran <= o.world.ran
    ensures w.files.Keys <= o.world.files.Keys
    ensures OnlyTouches(w, o.world, ArtifactSet(r, id))
    ensures o.Done? ==> Converged(host, r, id, o.world)
  {
    var o1 := Issue(host, r, id, w);
    if o1.Aborted? then
      OnlyTouchesWiden(w, o1.world, KeyMaterial(r, id), ArtifactSet(r, id));
      o1
    else
      var w2 := RenderProfiles(host, r, id, o1.world);
      var o3 := Archive(host, r, id, w2);
      OnlyTouchesTrans(w, o1.world, w2, KeyMaterial(r, id), {ConfPath(r, id), OvpnPath(r, id)});
      OnlyTouchesTrans(w, w2, o3.world, KeyMaterial(r, id) + {ConfPath(r, id), OvpnPath(r, id)}, {BundlePath(r, id)});
      OnlyTouchesWiden(w, o3.world, KeyMaterial(r, id) + {ConfPath(r, id), OvpnPath(r, id)} + {BundlePath(r, id)}, ArtifactSet(r, id));
      assert !Differs(w2, o3.world, ConfPath(r, id)) && !Differs(w2, o3.world, OvpnPath(r, id));
      o3
  }

  /** `:create` over the ids the search returns. Like every single `:create`,
      the batch only extends the log and never removes a file. */
  function CreateAll(host: Host, r: Resource, ids: seq<string>, w: World): (o: Outcome)
    ensures w.ran <= o.world.ran
    ensures w.files.Keys <= o.world.files.Keys
  {
    CreateBatchGrows(host, r, ids, w);
    Batch((id, w) => CreateUser(host, r, id, w), ids, w)
  }

  lemma {:induction false} CreateBatchGrows(host: Host, r: Resource, ids: seq<string>, w: World)
    ensures var o := Batch((id, w) => CreateUser(host, r, id, w), ids, w);
            w.ran <= o.world.ran && w.files.Keys <= o.world.files.Keys
    decreases |ids|
  {
    if ids != [] {
      var o := CreateUser(host, r, ids[0], w);
      if o.Done? { CreateBatchGrows(host, r, ids[1..], o.world); }
    }
  }

  lemma CreateAllStep(host: Host, r: Resource, ids: seq<string>, w: World)
    requires ids != []
    ensures var o := CreateUser(host, r, ids[0], w);
            CreateAll(host, r, ids, w) == if o.Done? then CreateAll(host, r, ids[1..], o.world) else o
  {
  }

  /** The commands one `:create` runs: `pkitool` when the certificate is
      absent, then `tar` when issuance did not abort and the archive is absent. */
  lemma CreateUserCommands(host: Host, r: Resource, id: string, w: World)
    ensures var o := CreateUser(host, r, id, w);
            Since(w, o.world) ==
              (if CertPath(r, id) in w.files then [] else [IssueCommand(r, id)])
              + (if Issue(host, r, id, w).Done? && BundlePath(r, id) !in w.files then [TarCommand(r, id)] else [])
  {
    var o1 := Issue(host, r, id, w);
    if o1.Done? {
      var w2 := RenderProfiles(host, r, id, o1.world);
      assert !Differs(w, o1.world, BundlePath(r, id)) && !Differs(o1.world, w2, BundlePath(r, id));
      var t1 := if CertPath(r, id) in w.files then [] else [IssueCommand(r, id)];
      var t2 := if BundlePath(r, id) in w.files then [] else [TarCommand(r, id)];
      assert CreateUser(host, r, id, w).world.ran == w.ran + t1 + t2;
      SinceIs(w, CreateUser(host, r, id, w).world, t1 + t2);
    } else {
      SinceIs(w, o1.world, [IssueCommand(r, id)]);
    }
  }

  /** Issuance runs exactly when the client's certificate is absent. */
  lemma IssuesIffCertAbsent(host: Host, r: Resource, id: string, w: World)
    ensures var o := CreateUser(host, r, id, w);
            IssueCommand(r, id) in Since(w, o.world) <==> CertPath(r, id) !in w.files
  {
    CreateUserCommands(host, r, id, w);
  }

  /** The archive is built only when it is absent, and a completed run always
      builds a missing one. */
  lemma ArchivesIffBundleAbsent(host: Host, r: Resource, id: string, w: World)
    ensures var o := CreateUser(host, r, id, w);
            && (TarCommand(r, id) in Since(w, o.world) ==> BundlePath(r, id) !in w.files)
            && (o.Done? && BundlePath(r, id) !in w.files ==> TarCommand(r, id) in Since(w, o.world))
  {
    CreateUserCommands(host, r, id, w);
  }

  /** On a converged client `:create` runs nothing and changes nothing. */
  lemma ConvergedIsFixpoint(host: Host, r: Resource, id: string, w: World)
    requires Converged(host, r, id, w)
    ensures CreateUser(host, r, id, w) == Done(w)
  {
    var w2 := RenderProfiles(host, r, id, w);
    assert w2.files == w.files;
  }

  /** Running `:create` a second time is a no-op: no issuance, no archive. */
  lemma CreateUserIdempotent(host: Host, r: Resource, id: string, w: World)
    requires CreateUser(host, r, id, w).Done?
    ensures var w' := CreateUser(host, r, id, w).world;
            CreateUser(host, r, id, w') == Done(w')
  {
    ConvergedIsFixpoint(host, r, id, CreateUser(host, r, id, w).world);
  }

  /** No file of one client is a file of another client. */
  lemma ArtifactsDisjoint(r: Resource, a: string, b: string)
    requires a != b
    ensures ArtifactSet(r, a) !! ArtifactSet(r, b)
  {
    BaseInjective(r.clientPrefix, a, b);
  }

  /** `:create` for one client keeps every other client converged. */
  lemma {:induction false} CreateKeepsOthersConverged(host: Host, r: Resource, id: string, other: string, w: World)
    requires Converged(host, r, other, w)
    requires CreateUser(host, r, id, w).Done?
    ensures Converged(host, r, other, CreateUser(host, r, id, w).world)
  {
    if id != other {
      ArtifactsDisjoint(r, other, id);
      var w' := CreateUser(host, r, id, w).world;
      assert !Differs(w, w', ConfPath(r, other)) && !Differs(w, w', OvpnPath(r, other));
    }
  }

  /** After a completed batch every client it listed is converged. */
  lemma {:induction false} CreateAllConverges(host: Host, r: Resource, ids: seq<string>, w: World)
    requires CreateAll(host, r, ids, w).Done?
    ensures forall i :: 0 <= i < |ids| ==> Converged(host, r, ids[i], CreateAll(host, r, ids, w).world)
    decreases |ids|
  {
    if ids != [] {
      CreateAllStep(host, r, ids, w);
      var o1 := CreateUser(host, r, ids[0], w);
      var w' := CreateAll(host, r, ids, w).world;
      CreateAllConverges(host, r, ids[1..], o1.world);
      CreateAllKeepsConverged(host, r, ids[1..], ids[0], o1.world);
      forall i | 0 <= i < |ids|
        ensures Converged(host, r, ids[i], w')
      {
        if i > 0 { assert ids[i] == ids[1..][i - 1]; }
      }
    }
  }

  /** A batch keeps a client converged if it was before. */
  lemma {:induction false} CreateAllKeepsConverged(host: Host, r: Resource, ids: seq<string>, other: string, w: World)
    requires Converged(host, r, other, w)
    requires CreateAll(host, r, ids, w).Done?
    ensures Converged(host, r, other, CreateAll(host, r, ids, w).world)
    decreases |ids|
  {
    if ids != [] {
      CreateAllStep(host, r, ids, w);
      var o1 := CreateUser(host, r, ids[0], w);
      CreateKeepsOthersConverged(host, r, ids[0], other, w);
      CreateAllKeepsConverged(host, r, ids[1..], other, o1.world);
    }
  }

  /** On a world where every listed client is converged the batch is a no-op. */
  lemma {:induction false} ConvergedBatchIsFixpoint(host: Host, r: Resource, ids: seq<string>, w: World)
    requires forall i :: 0 <= i < |ids| ==> Converged(host, r, ids[i], w)
    ensures CreateAll(host, r, ids, w) == Done(w)
    decreases |ids|
  {
    if ids != [] {
      ConvergedIsFixpoint(host, r, ids[0], w);
      CreateAllStep(host, r, ids, w);
      forall i | 0 <= i < |ids[1..]|
        ensures Converged(host, r, ids[1..][i], w)
      {
        assert ids[1..][i] == ids[i + 1];
      }
      ConvergedBatchIsFixpoint(host, r, ids[1..], w);
    }
  }

  /** Re-running a completed batch `:create` changes nothing and runs nothing. */
  lemma CreateAllIdempotent(host: Host, r: Resource, ids: seq<string>, w: World)
    requires CreateAll(host, r, ids, w).Done?
    ensures var w' := CreateAll(host, r, ids, w).world;
            CreateAll(host, r, ids, w') == Done(w')
  {
    CreateAllConverges(host, r, ids, w);
    ConvergedBatchIsFixpoint(host, r, ids, CreateAll(host, r, ids, w).world);
  }

  /** One client's failure ends the batch: the ids after it are not processed. */
  lemma CreateAllStopsAtFailure(host: Host, r: Resource, done: seq<string>, id: string, rest: seq<string>, w: World)
    requires CreateAll(host, r, done, w).Done?
    requires CreateUser(host, r, id, CreateAll(host, r, done, w).world).Aborted?
    ensures CreateAll(host, r, done + [id] + rest, w) == CreateUser(host, r, id, CreateAll(host, r, done, w).world)
  {
    var step := (id, w) => CreateUser(host, r, id, w);
    BatchAppend(step, done, [id] + rest, w);
    assert done + [id] + rest == done + ([id] + rest);
  }

  // ---------------------------------------------------------------- :remove

  /** `execute revoke-openvpn-<id>`, run only if the certificate exists and is
      still valid, followed at once by the CRL regeneration it notifies. */
  function RevokeStep(host: Host, r: Resource, id: string, w: World): (o: Outcome)
    ensures w.ran <= o.world.ran
    ensures o.world.files == w.files
  {
    if CertPath(r, id) in w.files && host.certValid(w, r.keyDir, Name(id, Crt)) then
      var o1 := Execute(host, w, RevokeCommand(r, id));
      if o1.Aborted? then o1 else Execute(host, o1.world, GenCrl)
    else Done(w)
  }

  /** `:remove` for one client: revoke, check that the certificate is no
      longer valid, and only then delete its six files. */
  function RemoveUser(host: Host, r: Resource, id: string, w: World): (o: Outcome)
    ensures w.ran <= o.world.ran
    ensures o.Aborted? ==> o.world.files == w.files
    ensures o.Done? ==> o.world.files == w.files - ArtifactSet(r, id)
    ensures o.world.ran == RevokeStep(host, r, id, w).world.ran
  {
    var o1 := RevokeStep(host, r, id, w);
    if o1.Aborted? then o1
    else if CertPath(r, id) in o1.world.files && host.certValid(o1.world, r.keyDir, Name(id, Crt)) then
      Aborted(o1.world, StillValid(CertPath(r, id)))
    else Done(DeleteFiles(o1.world, Artifacts(r, id)))
  }

  /** `:remove` over the ids the search returns. Whether it completes or not,
      it only extends the log and never creates or rewrites a file. */
  function RemoveAll(host: Host, r: Resource, ids: seq<string>, w: World): (o: Outcome)
    ensures w.ran <= o.world.ran
    ensures forall p :: p in o.world.files ==> p in w.files && o.world.files[p] == w.files[p]
  {
    RemoveBatchShrinks(host, r, ids, w);
    Batch((id, w) => RemoveUser(host, r, id, w), ids, w)
  }

  lemma {:induction false} RemoveBatchShrinks(host: Host, r: Resource, ids: seq<string>, w: World)
    ensures var o := Batch((id, w) => RemoveUser(host, r, id, w), ids, w);
            && w.ran <= o.world.ran
            && forall p :: p in o.world.files ==> p in w.files && o.world.files[p] == w.files[p]
    decreases |ids|
  {
    if ids != [] {
      var o := RemoveUser(host, r, ids[0], w);
      if o.Done? { RemoveBatchShrinks(host, r, ids[1..], o.world); }
    }
  }

  /** Revocation runs exactly when the certificate exists and is valid; the
      CRL regeneration follows it immediately, unless the revoke failed and
      aborted the run. */
  lemma RevokesIffValid(host: Host, r: Resource, id: string, w: World)
    ensures var o := RemoveUser(host, r, id, w);
            var valid := CertPath(r, id) in w.files && host.certValid(w, r.keyDir, Name(id, Crt));
            && (RevokeCommand(r, id) in Since(w, o.world) <==> valid)
            && (valid ==> Since(w, o.world) == [RevokeCommand(r, id), GenCrl]
                          || (Since(w, o.world) == [RevokeCommand(r, id)]
                              && o == Aborted(o.world, CommandFailed(RevokeCommand(r, id)))))
            && (!valid ==> Since(w, o.world) == [])
  {
    var o := RemoveUser(host, r, id, w);
    var o1 := RevokeStep(host, r, id, w);
    assert o.world.ran == o1.world.ran;
    if CertPath(r, id) in w.files && host.certValid(w, r.keyDir, Name(id, Crt)) {
      var e := Execute(host, w, RevokeCommand(r, id));
      if e.Aborted? {
        assert o == e;
        assert Since(w, o.world) == [RevokeCommand(r, id)];
      } else {
        assert e.world.ran == w.ran + [RevokeCommand(r, id)];
        assert o1.world.ran == w.ran + [RevokeCommand(r, id)] + [GenCrl];
        assert Since(w, o.world) == [RevokeCommand(r, id), GenCrl];
      }
    } else {
      assert Since(w, o.world) == [];
    }
  }

  /** A missing or already invalid certificate skips revocation without an
      error, and the six files are deleted. */
  lemma SkipsRevocationWhenNotValid(host: Host, r: Resource, id: string, w: World)
    requires !(CertPath(r, id) in w.files && host.certValid(w, r.keyDir, Name(id, Crt)))
    ensures RemoveUser(host, r, id, w) == Done(w.(files := w.files - ArtifactSet(r, id)))
  {
  }

  /** Files are deleted only after the post-revocation check found the
      certificate gone or invalid; if it is still valid the run aborts with
      every file in place. */
  lemma NoCleanupWhileStillValid(host: Host, r: Resource, id: string, w: World)
    ensures var o := RemoveUser(host, r, id, w);
            && (o.Done? ==> !(CertPath(r, id) in w.files && host.certValid(w.(ran := o.world.ran), r.keyDir, Name(id, Crt))))
            && (o.Aborted? && o.error.StillValid? ==>
                  o.world.files == w.files && host.certValid(o.world, r.keyDir, Name(id, Crt)))
  {
    var o1 := RevokeStep(host, r, id, w);
    assert o1.world == w.(ran := o1.world.ran);
  }

  /** After a completed batch none of the listed clients' files exist, and no
      other file was touched. */
  lemma {:induction false} RemoveAllCleansUp(host: Host, r: Resource, ids: seq<string>, w: World)
    requires RemoveAll(host, r, ids, w).Done?
    ensures RemoveAll(host, r, ids, w).world.files == w.files - ArtifactsOf(r, ids)
    decreases |ids|
  {
    if ids != [] {
      var o1 := RemoveUser(host, r, ids[0], w);
      assert o1.Done?;
      assert RemoveAll(host, r, ids, w) == RemoveAll(host, r, ids[1..], o1.world);
      RemoveAllCleansUp(host, r, ids[1..], o1.world);
      assert (w.files - ArtifactSet(r, ids[0])) - ArtifactsOf(r, ids[1..]) == w.files - ArtifactsOf(r, ids);
    }
  }

  function ArtifactsOf(r: Resource, ids: seq<string>): (s: set<Path>)
    ensures forall i :: 0 <= i < |ids| ==> ArtifactSet(r, ids[i]) <= s
    decreases |ids|
  {
    if ids == [] then {} else ArtifactSet(r, ids[0]) + ArtifactsOf(r, ids[1..])
  }

  /** `:remove` after `:create` deletes the client's six files and leaves the
      rest of the world as it was before `:create`, whether or not `:create`
      completed. */
  lemma RemoveUndoesCreate(host: Host, r: Resource, id: string, w: World)
    ensures var o := RemoveUser(host, r, id, CreateUser(host, r, id, w).world);
            o.Done? ==> o.world.files == w.files - ArtifactSet(r, id)
  {
    var w1 := CreateUser(host, r, id, w).world;
    OnlyTouchesMinus(w, w1, ArtifactSet(r, id));
  }

  /** Ids are not checked against the CA's own file names: a client called
      `ca` archives the CA's private key, and removing it deletes the CA
      certificate. */
  lemma CaClientExposesCaFiles(host: Host, r: Resource, w: World)
    ensures Name("ca", Key) in Members(r, "ca") && CaCrt in Members(r, "ca")
    ensures RemoveUser(host, r, "ca", w).Done? ==> Path(r.keyDir, CaCrt) !in RemoveUser(host, r, "ca", w).world.files
  {
    assert Members(r, "ca")[2] == Name("ca", Key);
    assert CertPath(r, "ca") == Path(r.keyDir, CaCrt);
  }

  /** The archive lists five distinct files unless the client is called `ca`,
      whose certificate and key are then the CA's own. */
  lemma MembersDistinct(r: Resource, id: string)
    ensures (forall i, j :: 0 <= i < j < |Members(r, id)| ==> Members(r, id)[i] != Members(r, id)[j]) <==> id != "ca"
  {
    var m := Members(r, id);
    if id == "ca" { assert m[0] == m[1]; }
  }
}

# OpenVPN client user resources, modelled in Dafny

The openvpn cookbook's `user` resource file holds two Chef resource
definitions, joined where a merge left a conflict marker behind:

- a **batch resource** (`LegacyUsers`): `:create` issues a certificate with
  `pkitool` for every id a data-bag search returns, renders the `.conf` and
  `.ovpn` profiles and archives them; `:remove` revokes every id another search
  returns, regenerates the CRL, re-checks the certificate and only then deletes
  the client's six files;
- a **single-client resource** (`ClientUser`): `:create` issues, renders the
  profiles into a destination directory (a plain profile when bundling, an
  inline profile embedding the CA certificate, client certificate and key
  otherwise), deletes a stale archive whenever a profile changes, and builds the
  archive; `:delete` removes the profiles and, when bundling, the archive.

The world is the map of existing files to their contents plus the log of
external commands run so far (`Effects.World`). Every action that can fail is a pure function
from a world to an `Outcome`: `Done` with the new world, or `Aborted` with the
world as the failing step left it. The single-client `:delete` cannot fail and
returns the new world itself (`ClientUser.Delete`). Chef does not roll back on an abort, and
neither does the model. The external tools, the certificate-validity check and
the template renderer are oracles collected in `Effects.Host`.

Files: `names.dfy` (file names as stem and extension), `effects.dfy`
(world, commands, the Chef `execute` / `template` / `file` semantics the
resources rely on, batches), `merge.dfy` (Ruby's `Hash#merge` with a block),
`legacy.dfy` and `client.dfy` (the two resources).

Behaviours of the code worth knowing:

- A batch stops at the first client whose step fails; later ids are not
  processed (`LegacyUsers.CreateAllStopsAtFailure`), because a failing
  resource ends the whole Chef run.
- With `create_bundle` false the single-client resource still builds an
  archive, of the inline profile and the key material
  (`ClientUser.ArchivesEvenWithoutBundling`), and `:delete` then leaves that
  archive in place (`ClientUser.DeleteAfterCreate`).
- An archive is rebuilt not only when missing or forced but also after a
  profile changed, because the changed template deletes it
  (`ClientUser.ArchivesIffForcedMissingOrStale`).
- Client ids are used in file names as they are. A client named `ca` has the
  CA certificate as its own certificate, so its archive lists that file twice
  (`LegacyUsers.MembersDistinct`, `ClientUser.MembersDistinct`); the batch
  resource's archive for it also ships `ca.key`, the CA's private key, and a
  completed `:remove` of it deletes the CA certificate
  (`LegacyUsers.CaClientExposesCaFiles`).
- With a separate destination directory the archive step runs there with
  member names relative to it, so it cannot succeed unless a `ca.crt` (and
  likewise the certificate and key) is present in that directory
  (`ClientUser.SeparateDestinationNeedsCaCert`).

## Model

| member | source | states |
|---|---|---|
| Names.TextInjective | resources/user.rb:135-140 | two file names spelled `<stem>.<ext>` are equal only when stem and extension are, so files can be told apart by their structured names |
| Names.BaseInjective | resources/user.rb:138 | two clients share a profile base name `<prefix>-<name>` exactly when they are the same client |
| Effects.Execute | resources/user.rb:35-52 | an `execute` whose guard let it run is logged, succeeds exactly when the tool does, on success adds exactly the files the tool produces and touches nothing else, and on failure aborts with the files unchanged |
| Effects.WriteFile | resources/user.rb:54-60 | a Chef `template` leaves the file holding the rendered text, removes no file, touches no other file, runs no command, and changes nothing when the file already holds that text |
| Effects.DeleteFile | resources/user.rb:102-112 | a Chef `file` with `action :delete` leaves the file absent, missing or not, touches no other file and runs no command |
| Effects.DeleteFiles | resources/user.rb:102-112 | deleting a list of files one by one removes exactly the listed files, missing ones included without error, and runs no command |
| Effects.Batch | resources/user.rb:34 | the search loop completes at once on no ids, and an aborted batch ends with the abort of the step for one of its ids |
| Effects.BatchAppend | resources/user.rb:34 | a search-driven batch over `a + b` runs `b` only if the run over `a` completed, and otherwise ends with the abort of `a` |
| Merge.MergeWith | resources/user.rb:186 | a merge with a block holds every key of either hash, takes the value of the one hash that has a key, and asks the block for keys both have |
| Merge.InlineVars | resources/user.rb:179-187 | the inline variables hold `client_cn`, `ca`, `cert`, `key` with their built-in values even when the additional variables name them, plus every other additional variable unchanged |
| Merge.KeepOldIsReversedUnion | resources/user.rb:186 | the keep-old merge is the map union in which the built-in hash wins every clash |
| LegacyUsers.Artifacts | resources/user.rb:102-112 | the deletion order lists six distinct files, all in `key_dir`: `<id>.tar.gz`, `.crt`, `.key`, `.csr`, then `<prefix>-<id>.conf` and `.ovpn`, which are exactly the client's six files |
| LegacyUsers.Issue | resources/user.rb:35-52 | the `generate-openvpn-<id>` step runs `pkitool` exactly when the certificate is absent, leaves the certificate when it completes, removes no file and touches only the client's key material |
| LegacyUsers.RenderProfiles | resources/user.rb:54-60 | the two templates leave `<prefix>-<id>.conf` and `.ovpn` holding the client's rendered profile, run no command and touch no other file |
| LegacyUsers.Archive | resources/user.rb:62-68 | the `create-openvpn-tar-<id>` step runs `tar` exactly when the archive is absent, leaves the archive when it completes and touches no other file |
| LegacyUsers.CreateUser | resources/user.rb:34-69 | `:create` for one id only adds or rewrites that client's six files, never removes a file, and on completion leaves the certificate, the archive and both rendered profiles in place |
| LegacyUsers.CreateAll | resources/user.rb:33-70 | the batch `:create`, completed or aborted, only extends the command log and never removes a file |
| LegacyUsers.CreateUserCommands | resources/user.rb:35-68 | the commands one `:create` runs: `pkitool` when the certificate is absent, then `tar` when issuing did not abort and the archive is absent |
| LegacyUsers.IssuesIffCertAbsent | resources/user.rb:51 | `pkitool` runs for a client exactly when its certificate is absent |
| LegacyUsers.ArchivesIffBundleAbsent | resources/user.rb:62-68 | `tar` runs only when the archive is absent, and a completed run always builds a missing archive |
| LegacyUsers.ConvergedIsFixpoint | resources/user.rb:34-69 | on a converged client `:create` runs nothing and changes nothing |
| LegacyUsers.CreateUserIdempotent | resources/user.rb:34-69 | a second `:create` after a completed one is a no-op |
| LegacyUsers.ArtifactsDisjoint | resources/user.rb:51-67 | no file of one client is a file of another client |
| LegacyUsers.CreateKeepsOthersConverged | resources/user.rb:34-69 | `:create` for one client keeps every other converged client converged |
| LegacyUsers.CreateAllConverges | resources/user.rb:33-70 | after a completed batch `:create` every listed client is converged |
| LegacyUsers.CreateAllKeepsConverged | resources/user.rb:33-70 | a completed batch keeps an already converged client converged |
| LegacyUsers.ConvergedBatchIsFixpoint | resources/user.rb:33-70 | when every listed client is converged the batch runs nothing and changes nothing |
| LegacyUsers.CreateAllIdempotent | resources/user.rb:33-70 | re-running a completed batch `:create` changes nothing and runs nothing |
| LegacyUsers.CreateAllStopsAtFailure | resources/user.rb:34-69 | when one client's `:create` aborts, the batch ends with that abort and the ids after it are not processed |
| LegacyUsers.RevokeStep | resources/user.rb:74-90 | revocation and the CRL regeneration it notifies change no file and only extend the command log |
| LegacyUsers.RemoveUser | resources/user.rb:73-112 | `:remove` for one id either aborts with every file in place or completes having deleted exactly the client's six files |
| LegacyUsers.RemoveAll | resources/user.rb:72-114 | the batch `:remove`, completed or aborted, only extends the command log and never creates or rewrites a file |
| LegacyUsers.RevokesIffValid | resources/user.rb:74-90 | the revoke command runs exactly when the certificate exists and is valid; then the CRL is regenerated at once unless the revoke failed, and otherwise nothing runs |
| LegacyUsers.SkipsRevocationWhenNotValid | resources/user.rb:85-112 | a missing or already invalid certificate skips revocation without error and the six files are deleted |
| LegacyUsers.NoCleanupWhileStillValid | resources/user.rb:92-106 | files are deleted only if the post-revocation check found the certificate gone or invalid; a still valid certificate aborts the run with every file in place |
| LegacyUsers.RemoveAllCleansUp | resources/user.rb:72-114 | after a completed batch `:remove` none of the listed clients' files exist and every other file is untouched |
| LegacyUsers.RemoveUndoesCreate | resources/user.rb:33-112 | a completed `:remove` after `:create`, whether or not `:create` completed, leaves none of the client's six files and every other file as it was before `:create` |
| LegacyUsers.CaClientExposesCaFiles | resources/user.rb:65 | the archive of a client called `ca` lists `ca.key` and `ca.crt`, and a completed `:remove` of that client deletes the CA certificate in `key_dir` |
| LegacyUsers.MembersDistinct | resources/user.rb:65 | the five archive members are distinct exactly when the client is not called `ca` |
| ClientUser.PathsDistinct | resources/user.rb:135-141 | the key material in `key_dir` and the profiles and archive in the destination are distinct files |
| ClientUser.OvpnVars | resources/user.rb:172-191 | the `.ovpn` variables: `client_cn` alone when bundling; otherwise the inline variables built from the CA certificate, certificate and key on disk, and an unreadable-file error naming a missing one |
| ClientUser.Issue | resources/user.rb:143-160 | issuance runs `pkitool` unless the certificate exists and `force` is not set, and touches only the key material |
| ClientUser.RenderProfile | resources/user.rb:190-197 | a rendered profile holds its content, and the archive is deleted exactly when rendering changed the profile |
| ClientUser.RenderConf | resources/user.rb:164-170 | the `.conf` is rendered only when bundling, and its change deletes the archive |
| ClientUser.RenderOvpn | resources/user.rb:172-191 | the `.ovpn` is rendered from its variables or the run aborts with their error, and its change deletes the archive |
| ClientUser.Prepare | resources/user.rb:143-191 | the steps before the archive run issuance only and touch only the key material, the profiles and the archive |
| ClientUser.PrepareRenders | resources/user.rb:162-197 | once the profiles are rendered the archive survives exactly when it existed and neither profile changed |
| ClientUser.Archive | resources/user.rb:199-205 | the archive step runs `tar` unless the archive exists and `force` is not set, and touches only the archive |
| ClientUser.Create | resources/user.rb:132-206 | `:create` touches only the client's key material, profiles and archive |
| ClientUser.CreateConverges | resources/user.rb:132-206 | a completed `:create` leaves the certificate, the archive and the rendered profiles in place |
| ClientUser.CreateCommands | resources/user.rb:143-205 | the commands `:create` runs: `pkitool` when forced or the certificate is missing, then `tar` when forced or the archive is missing after rendering |
| ClientUser.IssuesIffForcedOrAbsent | resources/user.rb:159 | `pkitool` runs exactly when `force` is set or the certificate is absent |
| ClientUser.ArchivesIffForcedMissingOrStale | resources/user.rb:162-205 | in a completed `:create`, `tar` runs exactly when forced, when the archive was missing, or when a profile changed |
| ClientUser.ConvergedIsFixpoint | resources/user.rb:132-206 | on a converged client an unforced `:create` runs nothing and changes nothing |
| ClientUser.CreateIdempotent | resources/user.rb:132-206 | a second unforced `:create` after a completed one is a no-op |
| ClientUser.ConfOnlyWhenBundling | resources/user.rb:164-170 | without bundling the `.conf` is left exactly as it was; with bundling a completed `:create` leaves it rendered |
| ClientUser.OvpnProfileContents | resources/user.rb:172-191 | the `.ovpn` renders the plain template when bundling and otherwise the inline template with the CA certificate, certificate and key on disk |
| ClientUser.CreateWritesWhereItShould | resources/user.rb:134-141 | every file `:create` changes is the client's certificate, key or request in `key_dir`, or its profiles or archive in `destination`, or in `key_dir` when no destination is given |
| ClientUser.ArchiveNeedsCaCert | resources/user.rb:199-203 | with no `ca.crt` in the destination the archive step completes only when it does not run |
| ClientUser.SeparateDestinationNeedsCaCert | resources/user.rb:199-203 | with a separate destination lacking `ca.crt`, a completed `:create` never ran `tar`, and a missing archive makes `:create` abort |
| ClientUser.MembersAreRenderedFiles | resources/user.rb:199-203 | the archive lists `ca.crt`, the certificate, the key and the `.ovpn`, plus the `.conf` exactly when bundling; when bundling these are the batch resource's five members in another order |
| ClientUser.MembersDistinct | resources/user.rb:201-202 | the archive members are distinct exactly when the client is not called `ca` |
| ClientUser.ArchivesEvenWithoutBundling | resources/user.rb:199-205 | without bundling a completed `:create` still leaves an archive, of `ca.crt`, certificate, key and `.ovpn` |
| ClientUser.Delete | resources/user.rb:208-224 | `:delete` removes exactly the two profiles, plus the archive when bundling, and runs no command |
| ClientUser.DeleteAfterCreate | resources/user.rb:208-224 | `:delete` after a completed `:create` leaves no profile, keeps the certificate, and keeps the archive exactly when not bundling |

## Left out

- The data-bag search (resources/user.rb:34, 73): the ids it returns, in order, are a parameter of the batch actions.
- Resource property defaults read from node attributes (resources/user.rb:17-31, 123-127): the model takes the resolved values.
- What `pkitool`, `openssl ca -revoke`, the CRL regeneration and `tar` do inside: their exit status and the contents they write are oracles.
- The certificate authority's own files in `key_dir` (the index database, the serial file, the per-serial certificate copies `pkitool` writes, and the CRL) are not files of the model: the CA's state is carried by the command log. So "touches nothing else" in the contracts of `Effects.Execute`, `LegacyUsers.RevokeStep`, `LegacyUsers.RemoveUser` and `LegacyUsers.RemoveAllCleansUp` means no other client or profile file.
- Effects.Execute: a failing command is taken to leave the files unchanged, for every tool. In reality `pkitool` writes `<id>.key` and `<id>.csr` before signing, and `tar` may leave a partial archive, so a failed run can leave files the existence guards (resources/user.rb:51, 67, 159, 204) then see on the next run.
- `cert_valid?`: it comes from the cookbook's `OpenVPN::Helper`, which is not part of this model, and is an uninterpreted predicate of the world.
- The contents of the ERB templates and of the PEM files: rendering is an uninterpreted function of the template name and its variables.
- Template rendering is taken never to fail: `Effects.Host.render` is a total function, so a `template` resource (resources/user.rb:55-59, 165-169, 173-190) cannot abort. In Chef a template missing from the `cookbook_user_conf` cookbook, or an ERB error under the given variables, raises and ends the run at that template, before the archive step and, in a batch, before the later ids. `LegacyUsers.CreateUserCommands`, `ClientUser.CreateCommands` and `LegacyUsers.CreateAllStopsAtFailure` describe only runs in which every template renders; the only abort the model gives a profile step is the unreadable-file error of `ClientUser.RenderOvpn`.
- The `gencrl` execute resource the revoke step notifies: it is defined elsewhere in the cookbook and is modelled as one command.
- The cookbook the templates come from (`cookbook_user_conf`, resources/user.rb:57, 166, 174): it chooses which `client.conf.erb` is rendered. It is taken as fixed within a run and folded into the render oracle, which is keyed only by the template name, so the model does not tell the two resources' cookbooks apart.
- `sensitive`, logging and file permissions: they do not affect which files exist or what they hold.
- LegacyUsers.Artifacts: the batch resource's `client_prefix` property and the ids are taken to hold no `/`, so "all in `key_dir`" holds. With a prefix such as `../x` the templates and the deletions (resources/user.rb:55, 108-109) would reach profiles outside `key_dir`; the stems themselves are modelled exactly.
- ClientUser.CreateWritesWhereItShould: client names and the client prefix are taken to hold no `/` (and so no `..` component). The code does not check this: a name such as `../x` makes `pkitool` and `File.join` (resources/user.rb:135, 144, 149) write the certificate outside `key_dir`, and a prefix with a `/` moves the profiles (resources/user.rb:138, 164). Ids from the data bags of the batch resource cannot hold a `/`.
- `File.expand_path` and `File.join`: directories are assumed to be given normalised and absolute, so expansion is the identity and a path is a directory and a file name.
- Merge.InlineVars: Ruby's distinction between symbol and string hash keys is not modelled; all keys are strings. The built-in keys are symbols (resources/user.rb:182-185), so only a symbol key in `additional_vars` clashes with them and is dropped. A string key such as `"ca"` does not clash, both reach the template, and Chef binds them to the same template variable in hash order, so the additional value wins. The promise that a built-in value is never overridden therefore holds only for symbol keys.
- ClientUser.OvpnProfileContents: the built-in CA certificate, certificate and key reach the inline profile only when `additional_vars` uses symbol keys, for the reason just given.
- Missing directories and permission errors when writing or deleting files.
- The merge conflict marker and the unclosed `action_class` block between the two definitions (resources/user.rb:116-118): the two halves are modelled as separate resources.

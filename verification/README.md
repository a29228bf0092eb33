# agent-config: the configuration round trip, in Dafny

agent-config is the small web application that configures a data-gathering
agent. Its edit page builds one form per group of the form schema, fills the
fields from the agent's two INI files (`settings.cfg` and `credentials.cfg`),
and on submission merges the valid forms' data and writes both files back,
together with an `env` file, deploy-key files and, for a project without a
quality report, a `data_sources.json` file describing the checkouts.

This project models that round trip and proves what it promises:

- `wrappers.dfy`, `js.dfy`: a `Result` type and the JavaScript value semantics
  the code relies on (truthiness, `String()`, `[].concat(x)[i]`, property
  access that throws on `null`/`undefined`, clamped `substring`).
- `presence.dfy`: `has_value` and the `<existing>` sentinel.
- `store.dfy`: an INI document as an ordered list of sections of ordered
  options, with the configparser operations the code uses.
- `writer.dfy`, `credentials.dfy`, `readback.dfy`, `settings.dfy`,
  `update.dfy`: `setOption`, `replaceSection`, `createKey`, `createSources`,
  `set_credentials`, `set_jenkins_credentials`, `writeSettings`,
  `writeCredentialsSources` and `update` from `lib/config.js`, with what
  each written section reads back as.
- `derive.dfy`: the field value helpers and every `form_options` rule of
  `lib/form.js`: how a field's value is derived from the stored files.
- `fields.dfy`: the string, host and map fields' `setValue`, `bind` and
  `setData`, the password and textarea widgets that never show a secret,
  and the validator that turns the resubmitted `<existing>` sentinel back
  into the stored value.
- `forms.dfy`: `create_forms`, its `hasForm` test and the expansion of
  cloneable groups into numbered instances.
- `edit.dfy`: `handleBody` of `lib/routes/edit.js`, including the
  `mergeWith` customiser that joins the instances' data.
- `status.dfy`: the `hasConfig` test of the status page.
- `roundtrip.dfy`: what the edit page shows after `set_credentials` wrote
  a version-control section: which submitted values come back unchanged,
  and the cases where they do not.

File I/O, the clock, URL parsing and the form library's own validation
are parameters of the model; see "Left out".

## Model

| member | source | states |
|---|---|---|
| Presence.PresentIffRealToken | lib/config.js:9-12 | An option read from a file counts as present exactly when it exists and is not one of `false`, `no`, `off`, `-`, `0` or the empty string. |
| Presence.Collapse | lib/form.js:117-119 | A field value is kept when it has a value and otherwise becomes the empty string, so the result is always the empty string or a real value, and has a value exactly when the input did. |
| Writer.SetOption | lib/config.js:28-30 | After setting an option in an existing section it reads back as the value's string form, or as `-` when the condition is false; the section list does not change, and a missing section leaves the document unchanged. |
| Writer.Rewrite | lib/config.js:24-27 | Replacing a section moves it to the end of the section order; every other section keeps its relative position. |
| Writer.RewriteReads | lib/config.js:24-30 | Every option of a replaced section, written once each, reads back as the string it was stored as. |
| Writer.ReadOther | lib/config.js:24-30 | Replacing one section leaves every option of every other section as it was. |
| Writer.RewriteHas | lib/config.js:24-27 | After a section is replaced, exactly that section and the ones already there exist. |
| Writer.CreateKey | lib/config.js:36-45 | A deploy key with a non-empty key goes to `source_<domain>` in the key directory and every other case uses `id_rsa`. A key is written exactly for a deploy key other than the `<existing>` sentinel, to that same path and with the submitted content, so the sentinel is never written to disk. A non-string key for a deploy key fails as `writeFileSync` would. |
| Writer.KeepFilled | lib/config.js:48-51 | Filtering checkouts keeps exactly the entries whose `value` is not the empty string, and fails when an entry is `null` or `undefined`. |
| Writer.DummySources | lib/config.js:52-59 | One `dummy <key or "repository on"> <domain>` entry per filled checkout, in order, with the checkout's URL and the instance's type. |
| Writer.GroupSource | lib/config.js:61-76 | With no checkouts, a GitLab or TFS instance (and only those) adds one `<type> repository on <domain>` entry of its own type. The GitLab URL is `http://<domain>/<group>/<group>.git` and the TFS URL is `http://<domain>/<group>/_git/Dummy`. |
| Writer.CreateSources | lib/config.js:47-77 | Sources are only appended: the earlier ones are kept as a prefix. With checkouts, exactly the dummy entries are appended. Without them, exactly the group entry is appended for a non-empty group and nothing for an empty one. Every appended name ends with the domain, and the call fails exactly when the checkouts cannot be filtered. |
| Credentials.CollectSourcesPrefix | lib/config.js:196-199 | The sources collected across the instances keep the initial ones as a prefix. |
| Credentials.CollectKeyWritesReal | lib/config.js:36-45 | No key write collected across the instances carries the `<existing>` sentinel. |
| Credentials.SetCredentials | lib/config.js:79-128 | An instance fails exactly when its key or checkouts are rejected. Otherwise the domain's section is rewritten with the fourteen options. The `env` assignment is empty exactly for username/password. The sources and key file are those of `createSources` and `createKey`. |
| Readback.SetCredentialsOptions | lib/config.js:103-125 | Each option of a written version-control section reads back as the code decides. `env` is a placeholder only for username/password. The password is real for username/password and deploy keys, each API token only for its own API. The TFS marker is set only for TFS, the group only for GitLab. The flags are `true` or `-`, and date and tag are kept. |
| Credentials.SetJenkinsCredentials | lib/config.js:130-140 | The Jenkins host's section is replaced and moved to the end of the section order. |
| Readback.JenkinsSectionReads | lib/config.js:135-139 | A Jenkins section is typed `jenkins` and holds its row's user, token and unsafe flag. |
| Credentials.ApplyInstance | lib/config.js:196-199 | One loop step fails exactly when the instance fails. Otherwise it rewrites the instance's section with its fourteen options and appends its env line. The sources become exactly what `createSources` returns on the earlier ones, and the key writes gain exactly the write `createKey` asks for. |
| Credentials.LastWritersStep | lib/config.js:103-125 | Rewriting the next instance's section makes it the last writer of its domain. Every earlier last writer of another domain keeps its section, and names no instance writes stay as they were. |
| Credentials.VcsLoop | lib/config.js:196-199 | The loop over the version-control instances fails exactly when an instance fails. On success, the sections are the old order rearranged with each instance's domain moved to the end. Each domain holds the section of the last instance naming it, and names no instance writes are untouched. The env text gets one line per instance. The sources are the `createSources` calls folded over the instances, and the key writes are the `createKey` writes in instance order. |
| Credentials.JenkinsLoop | lib/config.js:201-205 | The Jenkins rows with a non-empty host move their sections, in order, to the end. Each host holds the section of the last row naming it: `type=jenkins` and that row's user, token and unsafe flag. Sections no row writes are untouched. |
| Credentials.HostsWrittenStep | lib/config.js:201-205 | A non-empty row in front of the rows already written owns its host unless a later row names it again, and leaves every other host as those rows wrote it. |
| Credentials.JenkinsFoundType | lib/config.js:135-139 | A section holding a Jenkins row's options reads `type` as `jenkins`. |
| Credentials.LoopsContents | lib/config.js:190-205 | Starting from the emptied file, a domain no later instance or Jenkins row reclaims holds its last instance's section. A host holds its last row's section and reads `type=jenkins`. |
| Credentials.LoopsNames | lib/config.js:190-205 | Starting from the emptied file, the two loops leave exactly the domains and hosts, domains first. |
| Credentials.EnvHeader | lib/config.js:182-188 | The env text opens with a newline, `JIRA_KEY="<project keys joined by spaces>"` and `SSH_USERNAME=agent-<jira key>`. It ends with `skip_dropin=0` exactly when the first project has no quality report name, and otherwise ends with a newline. |
| Credentials.ProjectKeysSingle | lib/config.js:182-184 | With one project, the `JIRA_KEY` value is that project's key. |
| Credentials.WriteCredentialsSources | lib/config.js:181-222 | Writing fails with no projects or with a failing instance. Apart from those, it fails only for a `jira_key` that has a value but is not a string. Every old section is removed. The file then holds exactly the version-control domains and the non-empty Jenkins hosts, in that order. A domain holds its last instance's fourteen options, unless a Jenkins row reclaims the name. A host holds its last row's section, typed `jenkins`. The env text is the header plus one line per instance. The sources are what the instances' `createSources` calls collect, and the key writes are their `createKey` writes, none of them the sentinel. The sources file holds exactly those sources, at the JIRA key's export path, and is written exactly under the four-part gate. |
| Settings.SettingsSections | lib/config.js:142-179 | `writeSettings` moves `bigboat`, `projects`, `ssh`, `jenkins` and `quality-time` to the end in that order and keeps the other sections. |
| Settings.OthersKept | lib/config.js:142-179 | Every option outside the rebuilt sections reads as before, except `definitions.name`. |
| Settings.BigboatReads | lib/config.js:145-147 | The BigBoat host and key are the submitted ones. |
| Settings.ProjectRead | lib/config.js:149-153 | Each project's key reads back with its value; with a repeated key the last value wins. |
| Settings.ProjectAbsent | lib/config.js:149-153 | A key that is no project's key is absent from `projects`. |
| Settings.SingleProject | lib/config.js:149-153 | A single project reads back with its value. |
| Settings.SshReads | lib/config.js:155-158 | The SSH section holds `agent-<jira key>`, the configured SSH host and the fixed certificate path. |
| Settings.JenkinsBlanked | lib/config.js:160-164 | The settings' Jenkins section always holds four empty options. |
| Settings.DefinitionsName | lib/config.js:166-169 | `definitions.name` is `quality-report-data` exactly when that section exists and the quality report is enabled, and is absent otherwise. |
| Settings.QualityTimeContents | lib/config.js:171-176 | The `quality-time` section exists. It holds a name and the URL exactly when a Quality-time URL was given, and is empty otherwise. |
| ConfigUpdate.ProjectsOf | lib/config.js:225-229 | With no quality report names, the single project is the JIRA key with an empty name. An empty first key is replaced by the JIRA key, and the other entries are kept as submitted. Report names that are not a non-empty list, or that hold a `null` or undefined entry, fail. |
| ConfigUpdate.Update | lib/config.js:224-235 | Update fails exactly when the project list is rejected. Otherwise the settings are exactly what `writeSettings` makes of the settled project list: the rebuilt section order, with the JIRA key read back as a project when no report names were given. The credentials outcome is exactly the one `writeCredentialsSources` promises for the same list. It fails when an instance fails, and otherwise holds exactly the submitted sections. |
| Derive.GetDomain | lib/form.js:31-39 | A value changes only to the non-empty host the URL parser finds in it, and does change when there is one. |
| Derive.GetDomainIdempotent | lib/form.js:31-39 | When a parsed host has no host of its own, applying the function twice is the same as once. |
| Derive.GetDomainNonEmpty | lib/form.js:31-39 | Only the empty string becomes the empty string. |
| Derive.SectionValue | lib/form.js:41-54 | As written: a single section gives its first key, or `''` when the section is missing. A list of sections fails as soon as one of them exists. |
| Derive.SectionValueIntended | lib/form.js:47-53 | The list branch as intended never fails and agrees with the single-section branch. A list renders each listed section as its option names that pass `has_value`, joined by spaces; a missing section renders as `''`. The renderings are joined by spaces and trimmed, so a list of missing sections renders as `''`. |
| Derive.PresentKeys | lib/form.js:52 | `filter(has_value)` keeps exactly the option names that are not falsy tokens, and keeps the whole list when every name passes. |
| Derive.SectionValueTestsNames | lib/form.js:52 | The intended filter tests option names, not values: an option `TEST` holding the empty string still renders `TEST`. |
| Derive.SectionValueListThrows | lib/form.js:52 | For every existing section, the list form as written fails where the intended one succeeds. |
| Derive.OptionValue | lib/form.js:56-75 | An empty reference gives `''`; a settings or credentials reference gives the stored option, or undefined when it is missing. |
| Derive.Positional | lib/form.js:293 | The `cloneIndex`-th section (counting from 1), when there is one. |
| Derive.CredentialsSection | lib/form.js:283-294 | A section it returns always exists; it may return none, as for a new clone past the stored sections. It is the one the bound form's domain names when such a section exists, and otherwise the instance's positional section. |
| Derive.UnboundIsPositional | lib/form.js:283-294 | Before binding, every field reads the positional section. |
| Derive.JiraKey | lib/form.js:296-298 | The first project key, `''` without a `projects` section, and undefined for an empty one. |
| Derive.QualityReportName | lib/form.js:299-308 | The project keys and, position by position, their stored names. |
| Derive.VcsType | lib/form.js:309-330 | A stored real type wins. Otherwise the result is `tfs`, `gitlab`, `github`, `git` or `subversion` in priority order, each exactly when its marker options say so. |
| Derive.VcsAuth | lib/form.js:334-349 | Exactly one of the five methods, each exactly when the earlier markers are missing and its own is present. |
| Derive.VcsUser | lib/form.js:350-356 | A reference to `username` exactly when that option holds a real value, and nothing otherwise. |
| Derive.VcsToken | lib/form.js:357-371 | The first of `password`, `github_token`, `gitlab_token` that holds a real value, and nothing exactly when none does. |
| Derive.VcsKey | lib/form.js:372-383 | The sentinel exactly when the domain's key file or `id_rsa` exists, and `''` otherwise. |
| Derive.VcsGroup | lib/form.js:384-394 | The TFS collection, except the marker `true`, which gives nothing. Otherwise the GitLab group, and otherwise nothing. |
| Derive.Flag | lib/form.js:395-408 | `'1'` exactly when the option holds a real value, `''` otherwise. |
| Derive.Owned | lib/form.js:435-438 | Exactly the sources whose name starts with `dummy` and ends with the domain, and never more entries than the input. The order is stated by RoundTrip.OwnedAppend. |
| Derive.DecodeKey | lib/form.js:439-442 | The caption between `dummy ` and ` <domain>`, with `repository on` read as the empty key. |
| Derive.SidecarProject | lib/form.js:411-424 | The sources file is consulted exactly when the first project key has no quality report name. |
| Derive.VcsSource | lib/form.js:409-446 | An empty map unless the sources file is consulted and exists. Then, the keys and URLs of the entries the domain owns. It fails exactly when there is no section but some entry is owned. |
| Derive.JenkinsHostRule | lib/form.js:455-461 | A named section is the host; otherwise the domain of the settings' Jenkins host. |
| Derive.JenkinsRef | lib/form.js:462-477 | User and token come from the named section, or else from the settings' Jenkins section. |
| Derive.JenkinsUnsafe | lib/form.js:478-493 | `'1'` or `''`. For a named section it is `'1'` exactly when `unsafe_hosts` is set. Otherwise it is `'1'` exactly when the settings do not verify and the host is not plain HTTP. |
| Derive.Rule | lib/form.js:295-494 | A rule exists exactly for the eighteen named fields, and only the source rule can fail. |
| Fields.Origin | lib/form.js:100-110 | A field without a rule uses its schema option, and a field with one uses the rule's result. |
| Fields.Resolve | lib/form.js:111-116 | A direct value is used as is and a reference is looked up. |
| Fields.SetValue | lib/form.js:100-120 | A failing rule leaves the value alone. Otherwise the value is the resolved one, collapsed, so it is `''` or a real value. |
| Fields.DerivedNeverPlaceholder | lib/form.js:117-119 | A derived string field never shows a placeholder such as `-` or `0`. |
| Fields.Parse | lib/form.js:126-133 | A text field keeps the submitted string and a host field reduces it to its domain. |
| Fields.Bind | lib/form.js:88-91 | Binding remembers the displayed value as the original and parses the submission. |
| Fields.PasswordShown | lib/form.js:258-266 | A password field shows the sentinel exactly for a truthy value and nothing otherwise. |
| Fields.TextareaShown | lib/form.js:268-281 | A text area shows the sentinel exactly for a truthy value and `''` otherwise. |
| Fields.SecretNeverShown | lib/form.js:258-281 | A non-empty secret is never shown as itself. |
| Fields.NeededItems | lib/form.js:176-181 | The number of rows the data calls for: none for empty data, one for a string, the list length for a list, and a failure when the first column is `null` or undefined. |
| Fields.SetData | lib/form.js:176-188 | Rows are only added: the old rows are kept and fresh ones are appended up to the needed count. |
| Fields.Column | lib/form.js:194-197 | Row `i` of a column gets the column's `i`-th item. |
| Fields.Fill | lib/form.js:189-205 | Every row keeps the field's sub-fields. Failing data leaves the rows alone, and otherwise there are as many rows as needed. |
| Fields.MapSetValue | lib/form.js:189-205 | A map field without a rule is unchanged. With one it is filled from the rule's columns and never loses rows. |
| Fields.QualityReportItems | lib/form.js:299-308 | The quality-report map shows one row per project, with its key and stored name. |
| Fields.Substitute | lib/form.js:543-554 | A submitted value other than the sentinel is kept. The sentinel is replaced by the value derived again from the files, or by the original value when that is still the sentinel. |
| Fields.TokenSentinelKeepsSecret | lib/form.js:543-554 | A resubmitted token sentinel becomes the stored password of the submitted domain's section. |
| Fields.TokenSentinelEmpty | lib/form.js:543-554 | The sentinel becomes `''` when that section holds no token. |
| Fields.KeySentinelKept | lib/form.js:543-554 | A resubmitted key sentinel stays the sentinel while a key file exists. |
| Forms.CloneIdInjective | lib/form.js:564 | Distinct sequence numbers give distinct instance ids. |
| Forms.Clones | lib/form.js:560-576 | A cloneable group always has a first instance, `<group>_1`. |
| Forms.ClonesNumbered | lib/form.js:560-576 | The instances are numbered consecutively in both `sequence` and `cloneIndex`. |
| Forms.ClonesCalledFor | lib/form.js:563-575 | The number of instances is the one `hasForm` calls for: it holds for each later instance and fails for the one after the last. |
| Forms.CalledForUnique | lib/form.js:563-575 | That number is unique. |
| Forms.SubmittedCount | lib/form.js:527-530 | With a submission, a group has one instance for each consecutive `<group>_<n>` the body holds. |
| Forms.StoredCount | lib/form.js:531-538 | Without one, it has one instance, plus one for each following section that `hasForm` accepts. |
| Forms.PlainGroupOnce | lib/form.js:577-583 | A non-cloneable group gives one instance, numbered 1. |
| Forms.CloneableGroup | lib/form.js:558-576 | A cloneable group's instances come first, then the following groups with the clone index carried on. |
| Forms.CloneIndexConsecutive | lib/form.js:556-586 | Across all groups, the cloneable instances' `cloneIndex` counts up by one from 1. |
| Edit.Displayed | lib/routes/edit.js:25-32 | Before binding, a string field shows `''` or a real value, or nothing when its rule fails. |
| Edit.MapBind | lib/form.js:140-175 | A bound map field has one item per row needed or shown. Item `i` takes each sub-field's `i`-th value, or the whole value when it is not a list. |
| Edit.BindField | lib/form.js:88-91 | String fields bind the submitted value against the displayed one. Map fields fail exactly when their data does. |
| Edit.BindAll | lib/routes/edit.js:36 | Binding succeeds exactly when every field binds, one result per field. |
| Edit.DataOfAt | lib/routes/edit.js:36 | The form data maps each field's name to its bound data. |
| Edit.Validate | lib/form.js:543-554 | The validators keep the data's keys and change only fields holding the sentinel. |
| Edit.FormBody | lib/routes/edit.js:35 | A cloneable instance reads its own member of the body, and the others get the whole body. |
| Edit.Handle | lib/routes/edit.js:36-45 | An empty or missing body is reshown. A valid result passes the form's validation and holds exactly the form's fields. |
| Edit.Combine | lib/routes/edit.js:50-58 | The merge customiser: the first value is taken, a list is concatenated, and two scalars become a pair. Merging into `null` or an object fails. |
| Edit.MergeInto | lib/routes/edit.js:49-59 | Merging fails exactly when one key's customiser fails. Otherwise every key of either side is present, with the new keys combined and the old keys kept. |
| Edit.MergePerKey | lib/routes/edit.js:49-59 | The reduction succeeds exactly when every key's fold over its contributions succeeds, and each key's merged value is that fold. |
| Edit.MergeScalars | lib/routes/edit.js:49-59 | Scalar contributions from several instances end up as one list in instance order, and a single one stays a scalar. |
| Edit.MergedPositions | lib/routes/edit.js:49-59 | The `i`-th instance's scalar is at position `i` of the merged value, where `set_credentials` reads it. |
| Edit.MergeFlattens | lib/routes/edit.js:49-59 | List contributions are flattened into one list rather than kept per instance. |
| Edit.MergeSingle | lib/routes/edit.js:49-59 | A single valid instance's data is passed on unchanged. |
| Edit.OutcomesFailFrom | lib/routes/edit.js:33-46 | The first instance whose handling fails decides the failure. |
| Edit.HandleAll | lib/routes/edit.js:33-46 | Handling the instances in turn gives the same outcomes as the all-instances definition: the first failure, or one outcome per instance. |
| Edit.Submit | lib/routes/edit.js:48-60 | With every instance valid, the merged data goes to the update. A failed merge crashes the request. Otherwise the update fails exactly when the project list is rejected, and its settings and credentials are exactly those `update` promises for the merged data and the current files. |
| Edit.HandleBody | lib/routes/edit.js:20-83 | A failing instance crashes the request and an invalid one reshows all forms. Otherwise the merged data is passed to the update: a failed merge crashes the request, and the update's outcome is exactly the one `update` promises for the merged data and the current files. |
| Status.HasConfigFirstKey | lib/routes/index.js:15-24 | With a settings file, the agent counts as configured exactly when the first project key is not one of the falsy tokens. |
| Status.OneProjectConfigured | lib/routes/index.js:15-24 | A single project `TEST` is a configuration. |
| Status.EmptyNotConfigured | lib/routes/index.js:15-24 | An empty or missing `projects` section is not a configuration. |
| Status.WrittenProjects | lib/config.js:149-153 | After `writeSettings`, the `projects` section holds exactly the projects' options. |
| Status.ConfiguredAfterWrite | lib/routes/index.js:15-24 | After `writeSettings`, the status page reports the agent configured exactly when the first project key has a value. |
| RoundTrip.WrittenSectionLast | lib/form.js:293 | The instance whose clone index is the section count reads the section just written. |
| RoundTrip.BoundDomainReadsSection | lib/form.js:284-291 | A bound form naming the written domain reads that section, whatever its position. |
| RoundTrip.Written | lib/config.js:103-125 | The written document is the section rewrite of the instance's options. |
| RoundTrip.TypeStored | lib/config.js:105 | A submitted real type is what the type rule derives from the written section. |
| RoundTrip.TypeReadBack | lib/form.js:309-330 | The submitted type comes back when it is a real value. |
| RoundTrip.DomainReadBack | lib/form.js:331-333 | The submitted domain comes back. |
| RoundTrip.TokensStored | lib/config.js:106-120 | Each token option is filled exactly for its own method with a real token. `env` is filled exactly when the method is not username/password, and the username exactly when it is a real value. |
| RoundTrip.AuthStored | lib/config.js:96-120 | The written options select the submitted method for an API with a real token, for a deploy key, and for username/password with a real user; `none` selects `deploy_key`. |
| RoundTrip.AuthReadBack | lib/form.js:334-349 | The submitted authentication method comes back in those cases. |
| RoundTrip.AuthNoneReadsDeployKey | lib/form.js:342-344 | `none` comes back as `deploy_key`. |
| RoundTrip.UserStored | lib/config.js:107 | The stored username resolves to the submitted one when it is a real value or empty. |
| RoundTrip.UserReadBack | lib/form.js:350-356 | The submitted username comes back. |
| RoundTrip.TokenStored | lib/config.js:108-120 | The stored token resolves to the submitted one for every method that stores a token. |
| RoundTrip.TokenReadBack | lib/form.js:357-371 | The submitted token comes back. |
| RoundTrip.GroupStored | lib/config.js:116-121 | The stored group or collection resolves to the submitted one, except a TFS collection named `true`. |
| RoundTrip.GroupReadBack | lib/form.js:384-394 | The submitted group or collection comes back. |
| RoundTrip.TfsTrueCollectionLost | lib/form.js:386-388 | A TFS collection named `true` comes back empty. |
| RoundTrip.FlagsStored | lib/config.js:122-123 | Each check box is stored filled exactly when it was ticked. |
| RoundTrip.FlagsReadBack | lib/form.js:395-408 | Each check box comes back ticked exactly when it was ticked. |
| RoundTrip.DateTagStored | lib/config.js:124-125 | The start date and tag are stored as submitted. |
| RoundTrip.DateTagReadBack | lib/form.js:447-454 | The start date and tag come back as submitted. |
| RoundTrip.JenkinsHostReadBack | lib/form.js:455-461 | After `set_jenkins_credentials` writes a row with a non-empty host, an instance at that section shows the submitted host. |
| RoundTrip.JenkinsUserReadBack | lib/form.js:462-467 | The user field looks up an option that resolves to the row's user as text. |
| RoundTrip.JenkinsTokenReadBack | lib/form.js:468-477 | The token field looks up an option that resolves to the row's token as text. |
| RoundTrip.JenkinsUnsafeReadBack | lib/form.js:478-493 | The unsafe checkbox is `'1'` exactly when the row's flag was truthy, and `''` otherwise. |
| RoundTrip.JenkinsStored | lib/config.js:137-138 | The host's `username` and `password` read back as the row's user and token, as text. |
| RoundTrip.JenkinsUnsafeStored | lib/config.js:139 | The host's `unsafe_hosts` counts as set exactly when the row's unsafe flag was truthy. |
| RoundTrip.KeySentinelKept | lib/config.js:38-42 | A resubmitted key sentinel writes nothing, and the field shows the sentinel again. |
| RoundTrip.KeyWrittenShowsSentinel | lib/form.js:372-383 | A submitted key goes to the file the key field checks, so the field shows the sentinel and never the key. |
| RoundTrip.DecodeLabel | lib/form.js:439-442 | A checkout key other than `repository on` comes back from its dummy name, and an empty key comes back empty. |
| RoundTrip.RepositoryOnLabelLost | lib/form.js:442 | A checkout key that is literally `repository on` comes back empty. |
| RoundTrip.SuffixDomainOwned | lib/form.js:436-438 | The suffix test also claims the entries of a longer domain ending in this one. |
| RoundTrip.DummiesAppended | lib/config.js:52-59 | With filled checkouts, the collected sources are the earlier ones followed by one dummy entry per checkout. |
| RoundTrip.OwnedAdded | lib/form.js:435-438 | With no earlier entry owned by the domain, the domain owns exactly the dummy entries written for it. |
| RoundTrip.OwnedDummies | lib/form.js:435-438 | Every dummy entry written for a domain is owned by it. |
| RoundTrip.OwnedAppend | lib/form.js:435-438 | Owning splits over concatenation: a joined list owns its first part's entries followed by its second part's, so the filter keeps the input order. |
| RoundTrip.DummiesDecode | lib/form.js:438-445 | The dummy entries decode, in order, to the checkouts' keys and URLs. |
| RoundTrip.SourcesReadBack | lib/form.js:409-446 | With no earlier entry owned by the domain, the filled checkouts come back from the collected sources, keys and URLs in order. |
| RoundTrip.VcsSectionsCount | lib/form.js:531-534 | Without a submission, the page shows one version-control instance for the first section, plus one for each following section that is a version-control source. |

## Left out

- Reading and writing the files themselves (`read`, `writeConfig`,
  `writeFileSync`, `mkdirSync`). Documents are values; the files the
  key-field rule checks are a set of names, and the sources files a map
  from path to content.
- The JSON encoding of the sources file: what is written is what is read.
- Partial effects before an exception. A failing call is a `Failure`
  with no result, while the program may already have written some files.
- `path.join` normalisation. Paths are joined with `/` as they are.
- configparser internals. The model assumes that `get` of a missing
  section or option gives undefined, `set` on a missing section does
  nothing, and `addSection` appends.
- The form schema (`template/form.yml`), which is not part of this
  model. It is a parameter: the list of groups with their fields and
  cloneability, and the set of version-control type choices.
- The forms library: its required-field and pattern validation is a
  parameter `valid` of `HandleBody`, and its `handle` dispatch is reduced
  to "missing or empty body is reshown, a non-object body fails".
  Rendering, HTML, labels and hints are left out.
- URL parsing (`new URL(value).host`) is a parameter from string to
  optional host.
- Request parsing (formidable, qs), the HTTP responses and the
  success-page links, `console.log` output.
- The status page's scrape dates and `VERSION` file (moment, clock).
- Fields.MapSetValue: a rule that returns a reference instead of columns
  is read as an empty map; no map field has such a rule.
- Edit.Displayed: the first pass of `setValue` over all fields is pure,
  so it is recomputed where needed rather than stored on the fields.
- RoundTrip.VcsSectionsCount: states the count over the shape of the
  credentials document, not over the document `writeCredentialsSources`
  produces.
- RoundTrip.AuthReadBack: does not claim `none` comes back; it comes back
  as `deploy_key` (RoundTrip.AuthNoneReadsDeployKey).
- RoundTrip.SourcesReadBack: requires that no earlier entry is owned by the
  domain, since the suffix test also claims a longer domain's entries
  (RoundTrip.SuffixDomainOwned), and keys other than `repository on`
  (RoundTrip.RepositoryOnLabelLost).
- RoundTrip.GroupReadBack: excludes a TFS collection named `true`
  (RoundTrip.TfsTrueCollectionLost).
- Edit.MergeScalars: covers scalar contributions; list contributions are
  flattened (Edit.MergeFlattens), so per-instance lists do not survive the
  merge.
- Section and option order. configparser keeps sections and options as
  object keys, so `sections()` and `keys()` list integer-like names (such
  as `8080`) first, in ascending order, before the others in insertion
  order. The model keeps plain insertion order, so it assumes no section
  or option name is integer-like. This matters where the code picks by
  position: `credentials.sections()[cloneIndex - 1]` and
  `settings.keys('projects')[0]`.

## Findings

| source | as written | input that shows it | evidently intended | confidence | as-written member | corrected member |
|---|---|---|---|---|---|---|
| lib/form.js:52 | `getSectionValue` with a list of sections filters keys with `config.has_value`. But `config` here is the configparser parameter, which has no `has_value`, so `filter(undefined)` throws. The function has no caller in `lib/form.js`, so the failure is latent. | any list naming a section that exists, for example `["projects"]` with a `projects` section | filter the option names with the module's `has_value`, join each section's names and then the sections with spaces, and trim | not executed | Derive.SectionValue (witness Derive.SectionValueListThrows) | Derive.SectionValueIntended |

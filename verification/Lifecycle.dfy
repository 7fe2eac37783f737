/** Installing, enabling, switching and removing plugin versions
    (plugin/service.go), and the access tokens that depend on which version is
    enabled (plugin/integration_token.go). Calls that reach outside, starting and
    stopping processes and telling the hook dispatcher, may fail. */
module Lifecycle {
  import opened Text
  import opened Permissions
  import Versions

  datatype Key = Key(plugin: string, version: string)

  datatype State = Installing | Installed | InstallFailed | Enabling | Enabled | EnableFailed
    | Disabling | Uninstalling | Uninstalled

  datatype Failure = NoFailure | Invalid | StartFailed | StopFailed | HookRefreshFailed | FsDeleteFailed
    | ConfigMigrationFailed | CompensationFailed

  /** One registry row. unacknowledged: it asks for permissions that an installation from
      afar did not acknowledge. */
  datatype Row = Row(state: State, failure: Failure, permissions: seq<string>, unacknowledged: bool, compatible: bool)

  datatype Token = Token(plugin: string, scopes: seq<string>, revoked: bool)

  /** Scopes that were checked against a manifest, for a token of the plugin. */
  datatype Grant = Grant(plugin: string, scopes: seq<string>)

  /** A token as it was when the tokens of its plugin were listed. */
  datatype Listed = Listed(id: string, scopes: seq<string>)

  /** A version was enabled, and the tokens of its plugin are being cut down to what it is granted.
      rest: the tokens still to come, once they have been listed. */
  datatype Sweep = Sweep(version: Key, permissions: seq<string>, rest: Option<seq<Listed>>)

  /** The registry, the processes that run, the versions whose hooks are called, the tokens, what
      has been checked, and the sweeps under way, which keep their plugin locked. Token
      operations take no lock: between the check and the store of one of them, and between the
      steps of a sweep, anything may happen. */
  datatype Host = Host(rows: map<Key, Row>, running: set<Key>, targets: set<Key>, tokens: map<string, Token>,
                       checked: set<Grant>, sweeps: map<string, Sweep>)

  /** How the outside answers during one operation: Start, Stop, the two calls to Refresh
      (or the only one), and Disable of the dispatcher. */
  datatype Answers = Answers(starts: bool, stops: bool, refreshes: bool, again: bool, unhooks: bool)

  function SetState(rows: map<Key, Row>, k: Key, state: State, failure: Failure): (r: map<Key, Row>)
    requires k in rows
    ensures k in r && r[k] == rows[k].(state := state, failure := failure)
  {
    rows[k := rows[k].(state := state, failure := failure)]
  }

  lemma StillEnabled(rows: map<Key, Row>, k: Key, f: Failure)
    requires IsEnabled(rows, k)
    ensures EnabledKeys(SetState(rows, k, Enabled, f)) == EnabledKeys(rows)
  {
  }

  /** Only the last of two states is remembered. */
  lemma SetTwice(rows: map<Key, Row>, k: Key, s: State, f: Failure, s': State, f': Failure)
    requires k in rows
    ensures SetState(SetState(rows, k, s, f), k, s', f') == SetState(rows, k, s', f')
  {
  }

  predicate IsEnabled(rows: map<Key, Row>, k: Key) {
    k in rows && rows[k].state == Enabled
  }

  function EnabledKeys(rows: map<Key, Row>): set<Key> {
    set k | k in rows && rows[k].state == Enabled
  }

  function OfPlugin(keys: set<Key>, p: string): set<Key> {
    set k | k in keys && k.plugin == p
  }

  /** What FindEnabled may return: some enabled version of the plugin, if there is one. */
  predicate Finds(rows: map<Key, Row>, p: string, found: Option<Key>) {
    match found
    case Some(k) => k.plugin == p && IsEnabled(rows, k)
    case None => OfPlugin(EnabledKeys(rows), p) == {}
  }

  // ---------- tokens ----------

  function Reconciled(t: Token, p: string, permissions: seq<string>): Token {
    if t.plugin != p || t.revoked || Subset(t.scopes, permissions) then t
    else
      var c := Common(t.scopes, permissions);
      if c == [] then t.(revoked := true) else t.(scopes := c)
  }

  function ReconcileAll(tokens: map<string, Token>, p: string, permissions: seq<string>): map<string, Token> {
    map id | id in tokens :: Reconciled(tokens[id], p, permissions)
  }

  predicate Works(t: Token, p: string) {
    t.plugin == p && !t.revoked
  }

  predicate UniqueIds(listed: seq<Listed>) {
    forall i, j :: 0 <= i < j < |listed| ==> listed[i].id != listed[j].id
  }

  /** ListActiveByPlugin: the tokens that work, in any order. */
  predicate Lists(tokens: map<string, Token>, p: string, listed: seq<Listed>) {
    && UniqueIds(listed)
    && (forall e <- listed :: e.id in tokens && Works(tokens[e.id], p) && tokens[e.id].scopes == e.scopes)
    && (forall id <- tokens :: Works(tokens[id], p) ==> Listed(id, tokens[id].scopes) in listed)
  }

  function RevokeAll(tokens: map<string, Token>, p: string): map<string, Token> {
    map id | id in tokens :: if tokens[id].plugin == p then tokens[id].(revoked := true) else tokens[id]
  }

  /** The scopes a request ends up with: only what the enabled version is granted. */
  function Granted(rows: map<Key, Row>, found: Option<Key>, scopes: seq<string>): Option<seq<string>>
    requires found.Some? ==> found.value in rows
  {
    match found
    case None => None
    case Some(k) =>
      match Normalized(scopes)
      case None => None
      case Some(n) => if Subset(n, rows[k].permissions) then Some(n) else None
  }

  // ---------- the operations ----------

  predicate Recoverable(row: Row) {
    && !(row.state == EnableFailed && row.failure == CompensationFailed)
    && (row.state == Installed || row.state == EnableFailed)
  }

  predicate MayEnable(row: Row) {
    !row.unacknowledged && Recoverable(row) && row.compatible
  }

  /** Enable goes through. */
  predicate Enables(rows: map<Key, Row>, k: Key, a: Answers) {
    k in rows && MayEnable(rows[k]) && a.starts && a.refreshes
  }

  /** Enable: start, mark enabled, refresh the hooks; stop again if that fails. What is left then
      is to sweep the tokens. */
  function Enable(h: Host, k: Key, a: Answers): Host {
    if k !in h.rows || !MayEnable(h.rows[k]) then h
    else if !a.starts then h.(rows := SetState(h.rows, k, EnableFailed, StartFailed))
    else
      var enabled := SetState(h.rows, k, Enabled, NoFailure);
      if a.refreshes then
        h.(rows := enabled, running := h.running + {k}, targets := EnabledKeys(enabled),
           sweeps := h.sweeps[k.plugin := Sweep(k, h.rows[k].permissions, None)])
      else if !a.stops then
        h.(rows := SetState(enabled, k, EnableFailed, CompensationFailed), running := h.running + {k})
      else
        var failed := SetState(enabled, k, EnableFailed, HookRefreshFailed);
        h.(rows := failed, running := h.running - {k}, targets := if a.again then EnabledKeys(failed) else h.targets)
  }

  /** Disable: remove the hooks, stop, mark installed, refresh the hooks. */
  function Disable(h: Host, p: string, found: Option<Key>, a: Answers): Host
    requires Finds(h.rows, p, found)
  {
    match found
    case None => h
    case Some(k) =>
      if !a.unhooks then h.(rows := SetState(h.rows, k, Enabled, HookRefreshFailed))
      else
        var unhooked := h.targets - OfPlugin(h.targets, p);
        if !a.stops then
          if a.refreshes then
            h.(rows := SetState(h.rows, k, Enabled, StopFailed), targets := EnabledKeys(h.rows))
          else
            h.(rows := SetState(h.rows, k, Enabled, CompensationFailed), targets := unhooked)
        else
          var installed := SetState(h.rows, k, Installed, NoFailure);
          if a.refreshes then
            h.(rows := installed, running := h.running - {k}, targets := EnabledKeys(installed))
          else
            h.(rows := SetState(installed, k, Installed, HookRefreshFailed), running := h.running - {k},
               targets := unhooked)
  }

  predicate Disables(found: Option<Key>, a: Answers) {
    found.Some? && a.unhooks && a.stops && a.refreshes
  }

  predicate MaySwitch(rows: map<Key, Row>, k: Key) {
    k in rows && rows[k].compatible && Recoverable(rows[k])
  }

  /** SwitchEnabledVersion: check the target, migrate its config, disable, enable. */
  function Switch(h: Host, k: Key, found: Option<Key>, migrates: bool, down: Answers, up: Answers): Host
    requires Finds(h.rows, k.plugin, found)
  {
    if found == None then Enable(h, k, up)
    else if found == Some(k) || !MaySwitch(h.rows, k) then h
    else if !migrates then h.(rows := SetState(h.rows, k, Installed, ConfigMigrationFailed))
    else
      var off := Disable(h, k.plugin, found, down);
      if Disables(found, down) then Enable(off, k, up) else off
  }

  /** A switch goes through. */
  predicate Switches(rows: map<Key, Row>, k: Key, found: Option<Key>, migrates: bool, down: Answers, up: Answers) {
    if found == None then Enables(rows, k, up)
    else found == Some(k) || (MaySwitch(rows, k) && migrates && Disables(found, down) && Enables(rows, k, up))
  }

  predicate MayInstall(rows: map<Key, Row>, k: Key, bundled: bool) {
    k in rows ==> rows[k].state == InstallFailed || (rows[k].state == Uninstalled && bundled)
  }

  /** Install. accepted and stored: the checks before, and writing the files, went well. */
  function Install(h: Host, k: Key, manifest: Row, bundled: bool, accepted: bool, stored: bool, valid: bool): Host {
    if !accepted || !stored || !MayInstall(h.rows, k, bundled) then h
    else
      h.(rows := h.rows[k := manifest.(state := if valid then Installed else InstallFailed,
                                       failure := if valid then NoFailure else Invalid)])
  }

  predicate Stable(s: State) {
    s == Installed || s == InstallFailed || s == EnableFailed
  }

  predicate Remaining(rows: map<Key, Row>, p: string) {
    exists k :: k in rows && k.plugin == p && rows[k].state != Uninstalled
  }

  /** Uninstall: make sure it is stopped, delete its files, mark it uninstalled, and with the
      last version of a plugin revoke its tokens. */
  function Uninstall(h: Host, k: Key, stopped: bool, deleted: bool): Host {
    if k !in h.rows || !Stable(h.rows[k].state) then h
    else if !stopped then h.(rows := SetState(h.rows, k, Installed, StopFailed))
    else if !deleted then h.(rows := SetState(h.rows, k, Installed, FsDeleteFailed), running := h.running - {k})
    else
      var rows := SetState(h.rows, k, Uninstalled, NoFailure);
      h.(rows := rows, running := h.running - {k},
         tokens := if Remaining(rows, k.plugin) then h.tokens else RevokeAll(h.tokens, k.plugin))
  }

  function Purge(h: Host, k: Key): Host {
    if k in h.rows && h.rows[k].state == Uninstalled then h.(rows := h.rows - {k}) else h
  }

  /** The first half of Create and UpdateScopes: read the manifest and check the scopes. */
  function CheckScopes(h: Host, p: string, found: Option<Key>, scopes: seq<string>): Host
    requires Finds(h.rows, p, found)
  {
    match Granted(h.rows, found, scopes)
    case Some(n) => h.(checked := h.checked + {Grant(p, n)})
    case None => h
  }

  /** The second half of Create: store what was checked. */
  function CreateToken(h: Host, p: string, id: string, scopes: seq<string>): Host {
    if id in h.tokens then h else h.(tokens := h.tokens[id := Token(p, scopes, false)])
  }

  /** The second half of UpdateScopes, for a token of the plugin; a revoked one stays as it is. */
  function UpdateScopes(h: Host, id: string, scopes: seq<string>): Host
    requires id in h.tokens
  {
    if h.tokens[id].revoked then h else h.(tokens := h.tokens[id := h.tokens[id].(scopes := scopes)])
  }

  function Revoke(h: Host, p: string, id: string): Host {
    if id in h.tokens && h.tokens[id].plugin == p then h.(tokens := h.tokens[id := h.tokens[id].(revoked := true)])
    else h
  }

  // ---------- sweeps ----------

  function Continue(h: Host, p: string, rest: seq<Listed>): Host
    requires p in h.sweeps
  {
    h.(sweeps := if rest == [] then h.sweeps - {p} else h.sweeps[p := h.sweeps[p].(rest := Some(rest))])
  }

  /** The first step of ReconcileAfterSwitch. */
  function ListTokens(h: Host, p: string, listed: seq<Listed>, works: bool): Host
    requires p in h.sweeps
  {
    if works then Continue(h, p, listed) else h.(sweeps := h.sweeps - {p})
  }

  /** The next token, as it was listed, is within what the version is granted. */
  predicate NothingToCut(s: Sweep)
    requires s.rest.Some? && s.rest.value != []
  {
    Subset(s.rest.value[0].scopes, s.permissions)
  }

  predicate Writes(h: Host, p: string, works: bool)
    requires p in h.sweeps && h.sweeps[p].rest.Some? && h.sweeps[p].rest.value != []
  {
    var id := h.sweeps[p].rest.value[0].id;
    works && id in h.tokens && !h.tokens[id].revoked
  }

  /** One turn of the loop of ReconcileAfterSwitch: the scopes as they were listed are cut down and
      written. A token that has been revoked since cannot be written, which ends the loop. */
  function NextToken(h: Host, p: string, works: bool): Host
    requires p in h.sweeps && h.sweeps[p].rest.Some? && h.sweeps[p].rest.value != []
  {
    var s := h.sweeps[p];
    var e, more := s.rest.value[0], s.rest.value[1..];
    if NothingToCut(s) then Continue(h, p, more)
    else if !Writes(h, p, works) then h.(sweeps := h.sweeps - {p})
    else
      var c := Common(e.scopes, s.permissions);
      var t := h.tokens[e.id];
      Continue(h.(tokens := h.tokens[e.id := if c == [] then t.(revoked := true) else t.(scopes := c)]), p, more)
  }

  /** The plugin's tokens after a sweep that nothing comes between. */
  function Swept(h: Host, p: string): Host
    requires p in h.sweeps
  {
    h.(tokens := ReconcileAll(h.tokens, p, h.sweeps[p].permissions), sweeps := h.sweeps - {p})
  }

  // ---------- runs ----------

  datatype Op =
    | DoInstall(k: Key, manifest: Row, bundled: bool, accepted: bool, stored: bool, valid: bool)
    | DoEnable(k: Key, up: Answers)
    | DoDisable(p: string, found: Option<Key>, down: Answers)
    | DoSwitch(k: Key, found: Option<Key>, migrates: bool, down: Answers, up: Answers)
    | DoUninstall(k: Key, stopped: bool, deleted: bool)
    | DoPurge(k: Key)
    | DoCheck(p: string, found: Option<Key>, scopes: seq<string>)
    | DoCreate(p: string, id: string, scopes: seq<string>)
    | DoUpdate(p: string, id: string, scopes: seq<string>)
    | DoRevoke(p: string, id: string)
    | DoList(p: string, listed: seq<Listed>, works: bool)
    | DoNext(p: string, works: bool)

  /** The registry query returns what the registry holds, and what is stored was checked. */
  predicate Legal(h: Host, op: Op) {
    match op
    case DoDisable(p, found, _) => Finds(h.rows, p, found)
    case DoSwitch(k, found, _, _, _) => Finds(h.rows, k.plugin, found)
    case DoCheck(p, found, _) => Finds(h.rows, p, found)
    case DoCreate(p, _, scopes) => Grant(p, scopes) in h.checked
    case DoUpdate(p, id, scopes) => Grant(p, scopes) in h.checked && id in h.tokens && h.tokens[id].plugin == p
    case DoList(p, listed, _) => p in h.sweeps && h.sweeps[p].rest.None? && Lists(h.tokens, p, listed)
    case DoNext(p, _) => p in h.sweeps && h.sweeps[p].rest.Some? && h.sweeps[p].rest.value != []
    case _ => true
  }

  /** An operation on a plugin that is locked is refused. */
  predicate Refused(h: Host, op: Op) {
    match op
    case DoInstall(k, _, _, _, _, _) => k.plugin in h.sweeps
    case DoEnable(k, _) => k.plugin in h.sweeps
    case DoDisable(p, _, _) => p in h.sweeps
    case DoSwitch(k, _, _, _, _) => k.plugin in h.sweeps
    case DoUninstall(k, _, _) => k.plugin in h.sweeps
    case _ => false
  }

  function Step(h: Host, op: Op): Host
    requires Legal(h, op)
  {
    if Refused(h, op) then h else Effect(h, op)
  }

  function Effect(h: Host, op: Op): Host
    requires Legal(h, op)
  {
    match op
    case DoInstall(k, manifest, bundled, accepted, stored, valid) =>
      Install(h, k, manifest, bundled, accepted, stored, valid)
    case DoEnable(k, up) => Enable(h, k, up)
    case DoDisable(p, found, down) => Disable(h, p, found, down)
    case DoSwitch(k, found, migrates, down, up) => Switch(h, k, found, migrates, down, up)
    case DoUninstall(k, stopped, deleted) => Uninstall(h, k, stopped, deleted)
    case DoPurge(k) => Purge(h, k)
    case DoCheck(p, found, scopes) => CheckScopes(h, p, found, scopes)
    case DoCreate(p, id, scopes) => CreateToken(h, p, id, scopes)
    case DoUpdate(p, id, scopes) => UpdateScopes(h, id, scopes)
    case DoRevoke(p, id) => Revoke(h, p, id)
    case DoList(p, listed, works) => ListTokens(h, p, listed, works)
    case DoNext(p, works) => NextToken(h, p, works)
  }

  predicate LegalRun(h: Host, ops: seq<Op>)
    decreases ops
  {
    ops == [] || (Legal(h, ops[0]) && LegalRun(Step(h, ops[0]), ops[1..]))
  }

  function Run(h: Host, ops: seq<Op>): Host
    requires LegalRun(h, ops)
    decreases ops
  {
    if ops == [] then h else Run(Step(h, ops[0]), ops[1..])
  }

  const FRESH := Host(map[], {}, {}, map[], {}, map[])

  // ---------- what holds between operations ----------

  predicate Transient(s: State) {
    s == Installing || s == Enabling || s == Disabling || s == Uninstalling
  }

  predicate MayRun(row: Row) {
    row.state == Enabled || (row.state == EnableFailed && row.failure == CompensationFailed)
  }

  /** No operation is half done, every enabled version runs, whatever else runs could not be
      stopped and says so, and hooks are called only on enabled versions. */
  predicate Sound(h: Host) {
    && (forall k <- h.rows :: !Transient(h.rows[k].state))
    && (forall k <- h.rows :: h.rows[k].state == Enabled ==> k in h.running)
    && (forall k <- h.running :: k in h.rows && MayRun(h.rows[k]))
    && (forall k <- h.targets :: IsEnabled(h.rows, k))
  }

  /** At most one version of a plugin is enabled. */
  ghost predicate Single(rows: map<Key, Row>, p: string) {
    forall k, l :: IsEnabled(rows, k) && IsEnabled(rows, l) && k.plugin == p == l.plugin ==> k == l
  }

  ghost predicate AllSingle(rows: map<Key, Row>) {
    forall k, l :: IsEnabled(rows, k) && IsEnabled(rows, l) && k.plugin == l.plugin ==> k == l
  }

  /** Every stored or checked scope list is clean and not empty. */
  predicate TokensClean(h: Host) {
    && (forall id <- h.tokens :: Clean(h.tokens[id].scopes) && h.tokens[id].scopes != [])
    && (forall g <- h.checked :: Clean(g.scopes) && g.scopes != [])
  }

  /** The sweep of its plugin has not come to the token yet. */
  predicate Owed(h: Host, id: string)
    requires id in h.tokens
  {
    var p := h.tokens[id].plugin;
    p in h.sweeps && (h.sweeps[p].rest.None? || exists e <- h.sweeps[p].rest.value :: e.id == id)
  }

  /** The tokens that work carry no more than the enabled version is granted, but for those that a
      sweep has still to come to. */
  ghost predicate TokensFit(h: Host) {
    forall k, id :: IsEnabled(h.rows, k) && id in h.tokens && Works(h.tokens[id], k.plugin) && !Owed(h, id) ==>
      Subset(h.tokens[id].scopes, h.rows[k].permissions)
  }

  /** The tokens still to come have not changed, or were given what the version is granted. */
  predicate RestFits(tokens: map<string, Token>, p: string, permissions: seq<string>, rest: seq<Listed>) {
    UniqueIds(rest) &&
    forall e <- rest :: Clean(e.scopes) && e.scopes != [] && e.id in tokens && tokens[e.id].plugin == p &&
      (tokens[e.id].revoked || tokens[e.id].scopes == e.scopes || Subset(tokens[e.id].scopes, permissions))
  }

  /** Sweeps are those of enabled versions. */
  predicate SweepFits(h: Host, p: string)
    requires p in h.sweeps
  {
    var s := h.sweeps[p];
    && IsEnabled(h.rows, s.version) && s.version.plugin == p && h.rows[s.version].permissions == s.permissions
    && (s.rest.Some? ==> s.rest.value != [] && RestFits(h.tokens, p, s.permissions, s.rest.value))
  }

  predicate SweepsFit(h: Host) {
    forall p <- h.sweeps :: SweepFits(h, p)
  }

  ghost predicate Invariant(h: Host) {
    Sound(h) && AllSingle(h.rows) && TokensClean(h) && TokensFit(h) && SweepsFit(h)
  }

  /** No other version of the plugin is enabled. */
  ghost predicate Alone(rows: map<Key, Row>, k: Key) {
    forall l :: IsEnabled(rows, l) && l.plugin == k.plugin ==> l == k
  }

  /** Uninstall cannot stop what it uninstalls, although that is still running. */
  predicate LosesTrack(h: Host, k: Key, stopped: bool) {
    k in h.rows && Stable(h.rows[k].state) && !stopped && k in h.running
  }

  lemma EnableIsSound(h: Host, k: Key, a: Answers)
    requires Sound(h)
    ensures Sound(Enable(h, k, a))
  {
  }

  lemma DisableIsSound(h: Host, p: string, found: Option<Key>, a: Answers)
    requires Sound(h) && Finds(h.rows, p, found)
    ensures Sound(Disable(h, p, found, a))
  {
  }

  lemma SwitchIsSound(h: Host, k: Key, found: Option<Key>, migrates: bool, down: Answers, up: Answers)
    requires Sound(h) && Finds(h.rows, k.plugin, found)
    ensures Sound(Switch(h, k, found, migrates, down, up))
  {
    hide Enable, Disable, EnabledKeys, OfPlugin;
    if found == None {
      EnableIsSound(h, k, up);
    } else if found != Some(k) && MaySwitch(h.rows, k) {
      if migrates {
        hide Sound;
        DisableIsSound(h, k.plugin, found, down);
        EnableIsSound(Disable(h, k.plugin, found, down), k, up);
      } else {
        StateChanged(h, k, Switch(h, k, found, migrates, down, up).rows[k]);
        assert k !in h.running ==> h.running - {k} == h.running;
      }
    }
  }

  /** A version that is not enabled, and does not run any more, may change its state. */
  lemma StateChanged(h: Host, k: Key, row: Row)
    requires Sound(h) && k in h.rows && h.rows[k].state != Enabled && row.state != Enabled && !Transient(row.state)
    ensures Sound(h.(rows := h.rows[k := row], running := h.running - {k}))
  {
    assert k !in h.targets;
  }

  /** Uninstall keeps the books straight unless it loses track of a running process. */
  lemma UninstallIsSoundIff(h: Host, k: Key, stopped: bool, deleted: bool)
    requires Sound(h)
    ensures Sound(Uninstall(h, k, stopped, deleted)) <==> !LosesTrack(h, k, stopped)
  {
    var after := Uninstall(h, k, stopped, deleted);
    if LosesTrack(h, k, stopped) {
      assert k in after.running && !MayRun(after.rows[k]);
    } else if after != h {
      StateChanged(h, k, after.rows[k]);
      var changed := h.(rows := h.rows[k := after.rows[k]], running := h.running - {k});
      assert after.rows == changed.rows && after.running == changed.running && after.targets == changed.targets;
      hide Uninstall;
    }
  }

  // ---------- which versions are enabled ----------

  /** After enabling, this version is enabled exactly if it was before, or it may run here, what it asks for
      was acknowledged, it is installed or a former attempt failed without leaving a process
      behind, and it starts and its hooks are refreshed; other versions are as before. */
  lemma EnabledIff(h: Host, k: Key, a: Answers, l: Key)
    ensures IsEnabled(Enable(h, k, a).rows, l) <==>
              IsEnabled(h.rows, l) ||
              (l == k && k in h.rows && h.rows[k].compatible && !h.rows[k].unacknowledged && a.starts && a.refreshes &&
               (h.rows[k].state == Installed ||
                (h.rows[k].state == EnableFailed && h.rows[k].failure != CompensationFailed)))
  {
    hide EnabledKeys;
  }

  /** What may be enabled: the guard in words of the row. */
  predicate Startable(row: Row) {
    row.compatible && !row.unacknowledged &&
    (row.state == Installed || (row.state == EnableFailed && row.failure != CompensationFailed))
  }

  /** How enabling ends, from the answers of the outside: what the row says, whether the version runs and whose
      hooks are called. A version that did not come up may be tried again exactly if it does not run. */
  lemma EnableEnds(h: Host, k: Key, a: Answers)
    requires k in h.rows && Startable(h.rows[k]) && k !in h.running
    ensures var t := Enable(h, k, a); var row := t.rows[k];
            && k in t.rows && t.tokens == h.tokens
            && (a.starts && a.refreshes <==> row.state == Enabled)
            && (k in t.running <==> a.starts && (a.refreshes || !a.stops))
            && t.running - {k} == h.running
            && (row.state == Enabled ==> row.failure == NoFailure && t.targets == EnabledKeys(t.rows))
            && (row.state != Enabled ==>
                  row.state == EnableFailed && (Startable(row) <==> k !in t.running) &&
                  row.failure == if !a.starts then StartFailed else if a.stops then HookRefreshFailed
                  else CompensationFailed)
            && (row.state != Enabled && !(a.starts && a.stops && a.again) ==> t.targets == h.targets)
  {
    hide EnabledKeys;
  }

  /** How disabling ends: the version is enabled and runs as before unless its hooks could be removed and it could
      be stopped, and the row has no failure exactly if all went well; no hook of the plugin is called any
      more if they were removed and the dispatcher was not refreshed. */
  lemma DisableEnds(h: Host, k: Key, a: Answers)
    requires IsEnabled(h.rows, k) && k in h.running
    ensures var t := Disable(h, k.plugin, Some(k), a);
            && k in t.rows && t.tokens == h.tokens && t.sweeps == h.sweeps
            && t.running == (if a.unhooks && a.stops then h.running - {k} else h.running)
            && t.rows[k].state == (if a.unhooks && a.stops then Installed else Enabled)
            && t.rows[k].failure == (if !a.unhooks then HookRefreshFailed
                                     else if a.stops then if a.refreshes then NoFailure else HookRefreshFailed
                                     else if a.refreshes then StopFailed else CompensationFailed)
            && (a.unhooks && a.refreshes ==> t.targets == EnabledKeys(t.rows))
            && (a.unhooks && !a.refreshes ==> forall l <- t.targets :: l.plugin != k.plugin)
            && (!a.unhooks ==> t.targets == h.targets)
  {
    assert forall l :: IsEnabled(SetState(h.rows, k, Enabled, StopFailed), l) <==> IsEnabled(h.rows, l);
  }

  /** Installing changes something exactly if the checks and the writing went well and the version is not
      there, failed to be installed, or was uninstalled and comes with the program; the row is then that of
      the manifest, and says whether it is valid. */
  lemma InstallIff(h: Host, k: Key, manifest: Row, bundled: bool, accepted: bool, stored: bool, valid: bool)
    ensures var free := k !in h.rows || h.rows[k].state == InstallFailed || (h.rows[k].state == Uninstalled && bundled);
            Install(h, k, manifest, bundled, accepted, stored, valid) ==
            if accepted && stored && free then
              h.(rows := h.rows[k := Row(if valid then Installed else InstallFailed, if valid then NoFailure
                                         else Invalid,
                                         manifest.permissions, manifest.unacknowledged, manifest.compatible)])
            else h
  {
  }

  /** What is purged is the row of a version that was uninstalled, and nothing else. */
  lemma PurgeIff(h: Host, k: Key)
    ensures Purge(h, k).rows == if k in h.rows && h.rows[k].state == Uninstalled then h.rows - {k} else h.rows
    ensures Purge(h, k) == h.(rows := Purge(h, k).rows)
  {
  }

  /** How uninstalling ends: the version is gone exactly if it could be stopped and its files deleted; otherwise
      it counts as installed, with the reason. */
  lemma UninstallEnds(h: Host, k: Key, stopped: bool, deleted: bool)
    requires k in h.rows && h.rows[k].state in {Installed, InstallFailed, EnableFailed}
    ensures var t := Uninstall(h, k, stopped, deleted);
            && t.rows == h.rows[k := h.rows[k].(state := if stopped && deleted then Uninstalled else Installed,
                                                failure := if !stopped then StopFailed
                                                else if !deleted then FsDeleteFailed else NoFailure)]
            && t.running == (if stopped then h.running - {k} else h.running) && t.targets == h.targets
  {
    hide Remaining;
  }

  /** Enabled versions may run here and have what they ask for acknowledged. */
  predicate Permitted(rows: map<Key, Row>) {
    forall k <- rows :: rows[k].state == Enabled ==> rows[k].compatible && !rows[k].unacknowledged
  }

  lemma EnablePermits(h: Host, k: Key, a: Answers)
    requires Permitted(h.rows)
    ensures Permitted(Enable(h, k, a).rows)
  {
    hide EnabledKeys;
  }

  lemma DisablePermits(h: Host, p: string, found: Option<Key>, a: Answers)
    requires Permitted(h.rows) && Finds(h.rows, p, found)
    ensures Permitted(Disable(h, p, found, a).rows)
  {
    hide EnabledKeys, OfPlugin;
  }

  lemma StepPermits(h: Host, op: Op)
    requires Legal(h, op) && Permitted(h.rows)
    ensures Permitted(Step(h, op).rows)
  {
    hide EnabledKeys, OfPlugin, ReconcileAll, Granted, Common, Subset, Remaining, RevokeAll, Enable, Disable;
    if op.DoEnable? {
      EnablePermits(h, op.k, op.up);
    } else if op.DoDisable? {
      DisablePermits(h, op.p, op.found, op.down);
    } else if op.DoSwitch? {
      SwitchPermits(h, op.k, op.found, op.migrates, op.down, op.up);
    } else {
      hide Switch;
    }
  }

  lemma SwitchPermits(h: Host, k: Key, found: Option<Key>, migrates: bool, down: Answers, up: Answers)
    requires Permitted(h.rows) && Finds(h.rows, k.plugin, found)
    ensures Permitted(Switch(h, k, found, migrates, down, up).rows)
  {
    hide Enable, Disable, EnabledKeys, OfPlugin;
    EnablePermits(h, k, up);
    DisablePermits(h, k.plugin, found, down);
    EnablePermits(Disable(h, k.plugin, found, down), k, up);
  }

  lemma {:induction false} RunPermits(h: Host, ops: seq<Op>)
    requires LegalRun(h, ops) && Permitted(h.rows)
    ensures Permitted(Run(h, ops).rows)
    decreases ops
  {
    hide Step, Permitted;
    if ops != [] {
      StepPermits(h, ops[0]);
      RunPermits(Step(h, ops[0]), ops[1..]);
    }
  }

  // ---------- one enabled version ----------

  /** Enable, unlike Switch, does not look at other versions: it leaves a plugin with two
      enabled versions exactly when it goes through beside one. */
  lemma EnableIsSingleIff(h: Host, k: Key, a: Answers)
    requires AllSingle(h.rows)
    ensures AllSingle(Enable(h, k, a).rows) <==> !(Enables(h.rows, k, a) && !Alone(h.rows, k))
  {
    hide EnabledKeys, ReconcileAll;
    var after := Enable(h, k, a).rows;
    assert forall l :: l != k ==> (IsEnabled(after, l) <==> IsEnabled(h.rows, l));
    if Enables(h.rows, k, a) && !Alone(h.rows, k) {
      var l :| IsEnabled(h.rows, l) && l.plugin == k.plugin && l != k;
      assert IsEnabled(after, l) && IsEnabled(after, k);
    }
  }

  // ---------- runs that fail ----------

  /** Some run leads from h to t. */
  ghost predicate Leads(h: Host, t: Host) {
    exists ops: seq<Op> :: LegalRun(h, ops) && Run(h, ops) == t
  }

  lemma OneOp(h: Host, op: Op)
    requires Legal(h, op)
    ensures Leads(h, Step(h, op))
  {
    hide Step, Legal;
    assert [op][1..] == [];
    assert LegalRun(Step(h, op), []) && Run(Step(h, op), []) == Step(h, op);
    assert LegalRun(h, [op]) && Run(h, [op]) == Step(h, op);
  }

  lemma Onwards(h: Host, t: Host, op: Op)
    requires Leads(h, t) && Legal(t, op)
    ensures Leads(h, Step(t, op))
  {
    hide Step, Legal;
    OneOp(t, op);
    var first :| LegalRun(h, first) && Run(h, first) == t;
    var second :| LegalRun(t, second) && Run(t, second) == Step(t, op);
    RunOfBoth(h, first, second);
  }

  lemma {:induction false} RunOfBoth(h: Host, first: seq<Op>, second: seq<Op>)
    requires LegalRun(h, first) && LegalRun(Run(h, first), second)
    ensures LegalRun(h, first + second) && Run(h, first + second) == Run(Run(h, first), second)
    decreases first
  {
    hide Step, Legal;
    if first == [] {
      assert first + second == second;
    } else {
      assert (first + second)[1..] == first[1..] + second;
      RunOfBoth(Step(h, first[0]), first[1..], second);
    }
  }

  const SOUND_ROW := Row(Installed, NoFailure, [], false, true)
  const ALL_WORKS := Answers(true, true, true, true, true)

  const OLD := Key("p", "1.0.0")
  const NEW := Key("p", "1.1.0")

  /** Two versions are installed, and the older one is enabled. */
  function Ready(older: seq<string>, newer: seq<string>): Host {
    Host(map[OLD := SOUND_ROW.(permissions := older, state := Enabled), NEW := SOUND_ROW.(permissions := newer)],
         {OLD}, {OLD}, map[], {}, map[])
  }

  lemma GetsInstalled(older: seq<string>, newer: seq<string>)
    ensures Leads(FRESH, FRESH.(rows := map[OLD := SOUND_ROW.(permissions := older),
                                            NEW := SOUND_ROW.(permissions := newer)]))
  {
    hide Enable, Disable, Switch, Uninstall, Leads;
    var a := DoInstall(OLD, SOUND_ROW.(permissions := older), false, true, true, true);
    var b := DoInstall(NEW, SOUND_ROW.(permissions := newer), false, true, true, true);
    var h1 := FRESH.(rows := map[OLD := SOUND_ROW.(permissions := older)]);
    var h2 := h1.(rows := map[OLD := SOUND_ROW.(permissions := older), NEW := SOUND_ROW.(permissions := newer)]);
    assert Step(FRESH, a) == h1;
    assert Step(h1, b) == h2;
    hide Step;
    OneOp(FRESH, a);
    Onwards(FRESH, h1, b);
  }

  lemma GetsReady(older: seq<string>, newer: seq<string>)
    ensures Leads(FRESH, Ready(older, newer))
  {
    hide Leads;
    GetsInstalled(older, newer);
    var h := FRESH.(rows := map[OLD := SOUND_ROW.(permissions := older), NEW := SOUND_ROW.(permissions := newer)]);
    var c, d := DoEnable(OLD, ALL_WORKS), DoList("p", [], true);
    var e := Ready(older, newer).(sweeps := map["p" := Sweep(OLD, older, None)]);
    OldEnabled(h, older, newer);
    assert Legal(e, d) && Step(e, d) == Ready(older, newer) by { hide Enable, Disable, Switch, Uninstall, Install; }
    hide Step, Legal, Enable;
    assert Step(h, c) == e;
    Onwards(FRESH, h, c);
    Onwards(FRESH, e, d);
  }

  lemma OldEnabled(h: Host, older: seq<string>, newer: seq<string>)
    requires h == FRESH.(rows := map[OLD := SOUND_ROW.(permissions := older), NEW := SOUND_ROW.(permissions := newer)])
    ensures Step(h, DoEnable(OLD, ALL_WORKS)) == Ready(older, newer).(sweeps := map["p" := Sweep(OLD, older, None)])
  {
    hide Disable, Switch, Uninstall, Install;
    assert EnabledKeys(Ready(older, newer).rows) == {OLD};
    assert Step(h, DoEnable(OLD, ALL_WORKS)) == Enable(h, OLD, ALL_WORKS);
  }

  /** Two versions are installed and enabled one after the other from an empty registry. */
  lemma TwoVersionsEnabled()
    ensures exists t :: Leads(FRESH, t) && EnabledKeys(t.rows) == {OLD, NEW} && OLD != NEW
  {
    GetsReady([], []);
    var h := Ready([], []);
    var t := Step(h, DoEnable(NEW, ALL_WORKS));
    assert EnabledKeys(t.rows) == {OLD, NEW};
    hide Step, Leads;
    Onwards(FRESH, h, DoEnable(NEW, ALL_WORKS));
  }

  /** A version that neither came up nor went down again is uninstalled although it still runs. */
  lemma ProcessIsLost()
    ensures exists t ::
              Leads(FRESH, t) && OLD in t.rows && OLD in t.running && t.rows[OLD].state == Installed && !Sound(t)
  {
    var a := DoInstall(OLD, SOUND_ROW, false, true, true, true);
    var b := DoEnable(OLD, Answers(true, false, false, false, false));
    var c := DoUninstall(OLD, false, false);
    var h1 := Step(FRESH, a);
    var h2 := Step(h1, b);
    assert h1.rows == map[OLD := SOUND_ROW];
    assert h2.rows == map[OLD := SOUND_ROW.(state := EnableFailed, failure := CompensationFailed)] &&
           h2.running == {OLD};
    var h3 := Step(h2, c);
    assert h3.rows == map[OLD := SOUND_ROW.(state := Installed, failure := StopFailed)] && h3.running == {OLD};
    assert !MayRun(h3.rows[OLD]);
    OneOp(FRESH, a);
    hide Step, Leads, Sound;
    Onwards(FRESH, h1, b);
    Onwards(FRESH, h2, c);
  }

  lemma SwitchIsSingle(h: Host, k: Key, found: Option<Key>, migrates: bool, down: Answers, up: Answers)
    requires AllSingle(h.rows) && Finds(h.rows, k.plugin, found)
    ensures AllSingle(Switch(h, k, found, migrates, down, up).rows)
  {
    hide ReconcileAll;
    if found == None {
      NoneIsAlone(h.rows, k);
      EnableIsSingleIff(h, k, up);
    } else if found != Some(k) && MaySwitch(h.rows, k) && migrates {
      var off := Disable(h, k.plugin, found, down);
      assert forall l :: IsEnabled(off.rows, l) ==> IsEnabled(h.rows, l);
      EnableIsSingleIff(off, k, up);
    }
  }

  lemma NoneIsAlone(rows: map<Key, Row>, k: Key)
    requires OfPlugin(EnabledKeys(rows), k.plugin) == {}
    ensures Alone(rows, k)
  {
    assert forall l :: l in OfPlugin(EnabledKeys(rows), k.plugin) <==> IsEnabled(rows, l) && l.plugin == k.plugin;
  }

  /** A switch to a version that may not be switched to changes nothing, and one whose configuration cannot be
      migrated only says so. */
  lemma SwitchRefused(h: Host, k: Key, cur: Key, migrates: bool, down: Answers, up: Answers)
    requires cur != k && Finds(h.rows, k.plugin, Some(cur))
    ensures var may := k in h.rows && h.rows[k].compatible &&
                       (h.rows[k].state == Installed ||
                        (h.rows[k].state == EnableFailed && h.rows[k].failure != CompensationFailed));
            var t := Switch(h, k, Some(cur), migrates, down, up);
            (!may ==> t == h) &&
            (may && !migrates ==>
             t == h.(rows := h.rows[k := h.rows[k].(state := Installed, failure := ConfigMigrationFailed)]))
  {
    hide Enable, Disable, EnabledKeys, OfPlugin;
  }

  /** What is enabled after a switch from one version to another. There is no way back: if
      the old version was stopped and the new one does not come up, none is enabled. */
  lemma SwitchOutcome(h: Host, k: Key, cur: Key, migrates: bool, down: Answers, up: Answers)
    requires AllSingle(h.rows) && cur != k && Finds(h.rows, k.plugin, Some(cur))
    ensures var may := k in h.rows && h.rows[k].compatible &&
                       (h.rows[k].state == Installed ||
                        (h.rows[k].state == EnableFailed && h.rows[k].failure != CompensationFailed));
            var off := may && migrates && down.unhooks && down.stops;
            var on := off && down.refreshes && !h.rows[k].unacknowledged && up.starts && up.refreshes;
            OfPlugin(EnabledKeys(Switch(h, k, Some(cur), migrates, down, up).rows), k.plugin) ==
            if on then {k} else if off then {} else {cur}
  {
    hide Enable, Disable, OfPlugin, EnabledKeys;
    var t := Switch(h, k, Some(cur), migrates, down, up);
    DisabledIff(h, cur, down);
    OtherRowStays(h, k.plugin, Some(cur), down, k);
    var off := Disable(h, k.plugin, Some(cur), down);
    forall l ensures IsEnabled(Enable(off, k, up).rows, l) <==>
                       IsEnabled(off.rows, l) || (l == k && Enables(off.rows, k, up)) { EnabledIff(off, k, up, l); }
    KeysOfPlugin(t.rows, k.plugin);
    assert forall l :: IsEnabled(h.rows, l) && l.plugin == k.plugin ==> l == cur;
  }

  lemma KeysOfPlugin(rows: map<Key, Row>, p: string)
    ensures forall l :: l in OfPlugin(EnabledKeys(rows), p) <==> IsEnabled(rows, l) && l.plugin == p
  {
  }

  /** After disabling exactly this version is not enabled any more, if its hooks could be removed and it could be
      stopped. */
  lemma DisabledIff(h: Host, k: Key, a: Answers)
    requires IsEnabled(h.rows, k)
    ensures forall l :: IsEnabled(Disable(h, k.plugin, Some(k), a).rows, l) <==>
                          IsEnabled(h.rows, l) && !(l == k && a.unhooks && a.stops)
  {
    hide EnabledKeys, OfPlugin;
  }

  // ---------- tokens ----------

  /** Reconciling leaves a token within what the version is granted, by cutting its list
      down; a token with nothing left is revoked. */
  lemma ReconciledMeans(t: Token, p: string, permissions: seq<string>)
    requires Clean(t.scopes) && t.scopes != []
    ensures var r := Reconciled(t, p, permissions);
            && r.plugin == t.plugin && Clean(r.scopes) && r.scopes != [] && Subsequence(r.scopes, t.scopes)
            && (t.plugin == p && !r.revoked ==> Subset(r.scopes, permissions))
            && (forall s <- r.scopes :: s in t.scopes)
            && (t.revoked ==> r == t)
            && (t.plugin == p && !t.revoked ==> (r.revoked <==> forall s <- t.scopes :: s !in Allowed(permissions)))
  {
    hide Allowed, Subsequence, TrimSpace, Trimmed;
    SubsequenceOfItself(t.scopes);
    CommonMeans(t.scopes, permissions);
    var c := Common(t.scopes, permissions);
    assert t.scopes[0] in t.scopes;
    TrimmedStays(t.scopes[0]);
    if c != [] { assert c[0] in c; }
  }

  /** Enabling, and then a sweep that nothing comes between, leaves the working tokens within every
      enabled version, also beside others. */
  lemma EnableFits(h: Host, k: Key, a: Answers)
    requires TokensClean(h) && TokensFit(h) && k.plugin !in h.sweeps
    ensures var t := Enable(h, k, a);
            && TokensClean(t) && TokensFit(t) && (k.plugin in t.sweeps <==> Enables(h.rows, k, a))
            && (k.plugin in t.sweeps ==> TokensClean(Swept(t, k.plugin)) && TokensFit(Swept(t, k.plugin)))
  {
    hide Reconciled, Allowed, Clean, EnabledKeys, Subset;
    var after := Enable(h, k, a);
    if Enables(h.rows, k, a) {
      forall l, id |
        IsEnabled(after.rows, l) && id in after.tokens && Works(after.tokens[id], l.plugin) && !Owed(after, id)
        ensures Subset(after.tokens[id].scopes, after.rows[l].permissions)
      {
        assert IsEnabled(h.rows, l) && !Owed(h, id);
      }
      SweptFits(h, k, a);
    }
  }

  lemma SweptFits(h: Host, k: Key, a: Answers)
    requires TokensClean(h) && TokensFit(h) && k.plugin !in h.sweeps && Enables(h.rows, k, a)
    ensures var t := Swept(Enable(h, k, a), k.plugin); TokensClean(t) && TokensFit(t)
  {
    hide Reconciled, Allowed, Clean, EnabledKeys, Subset;
    var after := Swept(Enable(h, k, a), k.plugin);
    var granted := h.rows[k].permissions;
    forall id | id in after.tokens ensures after.tokens[id] == Reconciled(h.tokens[id], k.plugin, granted) {}
    forall id | id in after.tokens ensures Clean(after.tokens[id].scopes) && after.tokens[id].scopes != [] {
      ReconciledMeans(h.tokens[id], k.plugin, granted);
    }
    forall l, id |
      IsEnabled(after.rows, l) && id in after.tokens && Works(after.tokens[id], l.plugin) && !Owed(after, id)
      ensures Subset(after.tokens[id].scopes, after.rows[l].permissions)
    {
      ReconciledMeans(h.tokens[id], k.plugin, granted);
      assert !Owed(h, id);
      if l != k { SubsetMonotone(after.tokens[id].scopes, h.tokens[id].scopes, h.rows[l].permissions); }
    }
  }

  /** Fewer enabled versions, and no other tokens. */
  lemma FewerEnabled(h: Host, t: Host)
    requires TokensClean(h) && TokensFit(h) && t.checked == h.checked && t.sweeps == h.sweeps
    requires forall l :: IsEnabled(t.rows, l) ==> IsEnabled(h.rows, l) && t.rows[l].permissions == h.rows[l].permissions
    requires forall id <- t.tokens :: id in h.tokens && t.tokens[id] in {h.tokens[id], h.tokens[id].(revoked := true)}
    ensures TokensClean(t) && TokensFit(t)
  {
    hide Clean, Subset;
    forall k, id | IsEnabled(t.rows, k) && id in t.tokens && Works(t.tokens[id], k.plugin) && !Owed(t, id)
      ensures Subset(t.tokens[id].scopes, t.rows[k].permissions)
    {
      assert !Owed(h, id);
    }
  }

  lemma DisableFits(h: Host, p: string, found: Option<Key>, a: Answers)
    requires TokensClean(h) && TokensFit(h) && Finds(h.rows, p, found)
    ensures TokensClean(Disable(h, p, found, a)) && TokensFit(Disable(h, p, found, a))
  {
    hide TokensClean, TokensFit, EnabledKeys, OfPlugin;
    FewerEnabled(h, Disable(h, p, found, a));
  }

  lemma SwitchFits(h: Host, k: Key, found: Option<Key>, migrates: bool, down: Answers, up: Answers)
    requires TokensClean(h) && TokensFit(h) && Finds(h.rows, k.plugin, found) && k.plugin !in h.sweeps
    ensures TokensClean(Switch(h, k, found, migrates, down, up)) && TokensFit(Switch(h, k, found, migrates, down, up))
  {
    hide TokensClean, TokensFit, Enable;
    if found == None {
      EnableFits(h, k, up);
    } else if found != Some(k) && MaySwitch(h.rows, k) {
      if migrates {
        DisableFits(h, k.plugin, found, down);
        EnableFits(Disable(h, k.plugin, found, down), k, up);
      } else {
        FewerEnabled(h, Switch(h, k, found, migrates, down, up));
      }
    }
  }

  /** The rows and sweeps of other plugins are as they were. */
  predicate OnlyPlugin(h: Host, t: Host, p: string) {
    && (forall k <- h.rows :: k.plugin != p ==> k in t.rows && t.rows[k] == h.rows[k])
    && h.sweeps - {p} == t.sweeps - {p}
  }

  /** An operation on a plugin that is not swept keeps the sweeps of others. */
  lemma OtherSweepsFit(h: Host, t: Host, p: string)
    requires SweepsFit(h) && OnlyPlugin(h, t, p) && p !in h.sweeps
    requires forall id <- h.tokens :: id in t.tokens && (h.tokens[id].plugin == p || t.tokens[id] == h.tokens[id])
    requires p in t.sweeps ==> SweepFits(t, p)
    ensures SweepsFit(t)
  {
    hide Clean, Subset;
    forall q | q in t.sweeps ensures SweepFits(t, q) {
      if q != p {
        assert q in t.sweeps - {p} && q in h.sweeps && t.sweeps[q] == h.sweeps[q];
        assert SweepFits(h, q);
      }
    }
  }

  lemma EnableSweeps(h: Host, k: Key, a: Answers)
    requires SweepsFit(h) && k.plugin !in h.sweeps
    ensures SweepsFit(Enable(h, k, a))
  {
    hide RestFits, EnabledKeys;
    OtherSweepsFit(h, Enable(h, k, a), k.plugin);
  }

  lemma DisableSweeps(h: Host, p: string, found: Option<Key>, a: Answers)
    requires SweepsFit(h) && Finds(h.rows, p, found) && p !in h.sweeps
    ensures SweepsFit(Disable(h, p, found, a)) && Disable(h, p, found, a).sweeps == h.sweeps
  {
    hide RestFits, EnabledKeys, OfPlugin;
    OtherSweepsFit(h, Disable(h, p, found, a), p);
  }

  lemma SwitchSweeps(h: Host, k: Key, found: Option<Key>, migrates: bool, down: Answers, up: Answers)
    requires SweepsFit(h) && Finds(h.rows, k.plugin, found) && k.plugin !in h.sweeps
    ensures SweepsFit(Switch(h, k, found, migrates, down, up))
  {
    hide SweepsFit, Enable, Disable;
    if found == None {
      EnableSweeps(h, k, up);
    } else if found != Some(k) && MaySwitch(h.rows, k) {
      if migrates {
        DisableSweeps(h, k.plugin, found, down);
        EnableSweeps(Disable(h, k.plugin, found, down), k, up);
      } else {
        OtherSweepsFit(h, Switch(h, k, found, migrates, down, up), k.plugin);
      }
    }
  }

  lemma UninstallSweeps(h: Host, k: Key, stopped: bool, deleted: bool)
    requires SweepsFit(h) && k.plugin !in h.sweeps
    ensures SweepsFit(Uninstall(h, k, stopped, deleted))
  {
    hide RestFits, SweepsFit, Remaining;
    OtherSweepsFit(h, Uninstall(h, k, stopped, deleted), k.plugin);
  }

  /** The scopes are within what every enabled version of the plugin is granted. */
  ghost predicate StillGranted(rows: map<Key, Row>, p: string, scopes: seq<string>) {
    forall k :: IsEnabled(rows, k) && k.plugin == p ==> Subset(scopes, rows[k].permissions)
  }

  /** Something is named, and all that is named is known. */
  predicate Named(scopes: seq<string>) {
    (exists s :: s in scopes && TrimSpace(s) != "") && forall s <- scopes :: TrimSpace(s) == "" || TrimSpace(s) in KNOWN
  }

  /** All that is named is among the permissions. */
  predicate Within(scopes: seq<string>, permissions: seq<string>) {
    forall s <- scopes :: TrimSpace(s) != "" ==> exists p :: p in permissions && TrimSpace(p) == TrimSpace(s)
  }

  /** Scopes are granted exactly if a version is enabled, something is named, all of that is known, and it is
      among the permissions of that version. */
  lemma GrantedIff(rows: map<Key, Row>, found: Option<Key>, scopes: seq<string>)
    requires found.Some? ==> found.value in rows
    ensures Granted(rows, found, scopes).Some? <==>
              found.Some? && Named(scopes) && Within(scopes, rows[found.value].permissions)
  {
    NamedIff(scopes);
    hide Named, Within, Normalized, Subset;
    if found.Some? && Normalized(scopes).Some? { WithinIff(scopes, rows[found.value].permissions); }
  }

  lemma NamedIff(scopes: seq<string>)
    ensures Normalized(scopes).Some? <==> Named(scopes)
  {
    hide TrimSpace, Normalized;
    NormalizedIff(scopes);
  }

  /** What is named is among the permissions exactly if the normalised scopes are. */
  lemma WithinIff(scopes: seq<string>, permissions: seq<string>)
    requires Normalized(scopes).Some?
    ensures Subset(Normalized(scopes).value, permissions) <==> Within(scopes, permissions)
  {
    var n := Normalized(scopes).value;
    NormalizedIff(scopes);
    forall s | s in n ensures TrimSpace(s) == s { TrimmedStays(s); }
    SubsetIff(n, permissions);
    hide TrimSpace, Trimmed, Normalized, Subset;
    forall s | s in scopes && TrimSpace(s) != "" ensures TrimSpace(s) in n {}
    forall s | s in n ensures exists t :: t in scopes && TrimSpace(t) == s {}
  }

  /** What was just checked is granted, while the plugin has one enabled version. */
  lemma CheckedIsGranted(h: Host, p: string, found: Option<Key>, scopes: seq<string>)
    requires Finds(h.rows, p, found) && Single(h.rows, p) && Granted(h.rows, found, scopes).Some?
    ensures var n := Granted(h.rows, found, scopes).value; StillGranted(h.rows, p, n) && Clean(n) && n != []
  {
    hide Clean, Subset, Normalized;
    NormalizedIff(scopes);
    forall l | IsEnabled(h.rows, l) && l.plugin == p ensures l == found.value {}
  }

  lemma CheckedIsOrderly(h: Host, p: string, found: Option<Key>, scopes: seq<string>)
    requires Invariant(h) && Finds(h.rows, p, found) && Granted(h.rows, found, scopes).Some?
    ensures StillGranted(h.rows, p, Granted(h.rows, found, scopes).value)
  {
    CheckedIsGranted(h, p, found, scopes);
  }

  function IdsFrom(listed: seq<Listed>, i: nat): set<string>
    requires i <= |listed|
  {
    set j | i <= j < |listed| :: listed[j].id
  }

  lemma IdsStep(listed: seq<Listed>, i: nat)
    requires UniqueIds(listed) && i < |listed|
    ensures IdsFrom(listed, i) == {listed[i].id} + IdsFrom(listed, i + 1) && listed[i].id !in IdsFrom(listed, i + 1)
  {
  }

  /** The first i of the listed tokens are reconciled. */
  ghost predicate HalfSwept(start: Host, p: string, listed: seq<Listed>, i: nat, h: Host)
    requires i <= |listed| && p in start.sweeps
  {
    && Lists(start.tokens, p, listed)
    && h == Continue(start.(tokens := h.tokens), p, listed[i..])
    && h.tokens.Keys == start.tokens.Keys
    && forall id <- start.tokens ::
         h.tokens[id] == if id in IdsFrom(listed, i) then start.tokens[id]
                         else Reconciled(start.tokens[id], p, start.sweeps[p].permissions)
  }

  lemma SweepBegins(start: Host, p: string, listed: seq<Listed>, h: Host)
    requires p in start.sweeps && start.sweeps[p].rest.None? && Lists(start.tokens, p, listed) &&
             h == Continue(start, p, listed)
    ensures HalfSwept(start, p, listed, 0, h)
  {
    hide Lists, Subset, Common;
    assert listed[0..] == listed;
    forall id | id in start.tokens && id !in IdsFrom(listed, 0)
      ensures Reconciled(start.tokens[id], p, start.sweeps[p].permissions) == start.tokens[id]
    {
      NotListed(start.tokens, p, listed, id);
    }
  }

  lemma SweepGoesOn(start: Host, p: string, listed: seq<Listed>, i: nat, h: Host)
    requires i <= |listed| && p in start.sweeps && HalfSwept(start, p, listed, i, h) && p in h.sweeps
    ensures i < |listed| && Legal(h, DoNext(p, true)) && HalfSwept(start, p, listed, i + 1, Step(h, DoNext(p, true)))
  {
    hide Subset, Common, Enable, Disable, Switch, Uninstall, Install;
    assert h.sweeps[p].rest == Some(listed[i..]);
    assert listed[i..][0] == listed[i] && listed[i..][1..] == listed[i + 1..];
    assert listed[i] in listed;
    IdsStep(listed, i);
    hide Lists;
  }

  lemma SweepIsOver(start: Host, p: string, listed: seq<Listed>, i: nat, h: Host)
    requires i <= |listed| && p in start.sweeps && HalfSwept(start, p, listed, i, h) && p !in h.sweeps
    ensures h == Swept(start, p)
  {
    hide Lists, Reconciled;
    assert i == |listed| && IdsFrom(listed, i) == {};
  }

  lemma NotListed(tokens: map<string, Token>, p: string, listed: seq<Listed>, id: string)
    requires Lists(tokens, p, listed) && id in tokens && id !in IdsFrom(listed, 0)
    ensures !Works(tokens[id], p)
  {
    forall e | e in listed ensures e.id in IdsFrom(listed, 0) {
      var j :| 0 <= j < |listed| && listed[j] == e;
    }
  }

  /** The sweep of the plugin has not listed its tokens yet, or it listed this one as it is stored. */
  predicate Awaited(h: Host, p: string, id: string, scopes: seq<string>) {
    p in h.sweeps && (h.sweeps[p].rest.None? || Listed(id, scopes) in h.sweeps[p].rest.value)
  }

  /** When scopes are stored, working tokens stay within the enabled version, after all sweeps under
      way, exactly if what was checked before is still granted, or a sweep will still see it. */
  lemma StoreFitsIff(h: Host, op: Op)
    requires AllSingle(h.rows) && TokensClean(h) && TokensFit(h) && SweepsFit(h) && Legal(h, op)
    requires (op.DoCreate? && op.id !in h.tokens) || (op.DoUpdate? && !h.tokens[op.id].revoked)
    ensures TokensClean(Step(h, op))
    ensures TokensFit(Step(h, op)) && SweepsFit(Step(h, op)) <==>
            StillGranted(h.rows, op.p, op.scopes) || Awaited(h, op.p, op.id, op.scopes)
  {
    hide Clean, Subset;
    var after := Step(h, op);
    assert Grant(op.p, op.scopes) in h.checked;
    assert after.tokens == h.tokens[op.id := Token(op.p, op.scopes, false)];
    if TokensFit(after) && SweepsFit(after) {
      StoredFits(h, op);
    } else if StillGranted(h.rows, op.p, op.scopes) || Awaited(h, op.p, op.id, op.scopes) {
      FitsStored(h, op);
    }
  }

  lemma StoredFits(h: Host, op: Op)
    requires AllSingle(h.rows) && (op.DoCreate? || op.DoUpdate?)
    requires var t := h.(tokens := h.tokens[op.id := Token(op.p, op.scopes, false)]); TokensFit(t) && SweepsFit(t)
    ensures StillGranted(h.rows, op.p, op.scopes) || Awaited(h, op.p, op.id, op.scopes)
  {
    hide Clean, Subset;
    var t := h.(tokens := h.tokens[op.id := Token(op.p, op.scopes, false)]);
    if !Awaited(h, op.p, op.id, op.scopes) {
      if Owed(t, op.id) {
        assert SweepFits(t, op.p);
        var e :| e in h.sweeps[op.p].rest.value && e.id == op.id;
        assert e != Listed(op.id, op.scopes);
        assert Subset(op.scopes, h.sweeps[op.p].permissions);
      }
      forall k | IsEnabled(h.rows, k) && k.plugin == op.p ensures Subset(op.scopes, h.rows[k].permissions) {
        assert IsEnabled(t.rows, k);
      }
    }
  }

  lemma FitsStored(h: Host, op: Op)
    requires AllSingle(h.rows) && TokensFit(h) && SweepsFit(h) && (op.DoCreate? || op.DoUpdate?)
    requires op.id in h.tokens ==> h.tokens[op.id].plugin == op.p && !h.tokens[op.id].revoked
    requires StillGranted(h.rows, op.p, op.scopes) || Awaited(h, op.p, op.id, op.scopes)
    ensures var t := h.(tokens := h.tokens[op.id := Token(op.p, op.scopes, false)]); TokensFit(t) && SweepsFit(t)
  {
    hide Clean, Subset;
    var t := h.(tokens := h.tokens[op.id := Token(op.p, op.scopes, false)]);
    forall id | id in h.tokens ensures Owed(t, id) == Owed(h, id) {}
    forall q | q in t.sweeps ensures SweepFits(t, q) {
      assert SweepFits(h, q);
      if q == op.p && h.sweeps[q].rest.Some? {
        forall e | e in h.sweeps[q].rest.value && e.id == op.id
          ensures op.scopes == e.scopes || Subset(op.scopes, h.sweeps[q].permissions)
        {
          if !StillGranted(h.rows, op.p, op.scopes) { SameEntry(h.sweeps[q].rest.value, e, Listed(op.id, op.scopes)); }
        }
      }
    }
    assert Awaited(h, op.p, op.id, op.scopes) ==> Owed(t, op.id);
  }

  lemma SameEntry(rest: seq<Listed>, e: Listed, f: Listed)
    requires UniqueIds(rest) && e in rest && f in rest && e.id == f.id
    ensures e == f
  {
  }

  const JOBS := ["jobs:read"]

  /** A token is checked for the older version, which is granted something, and the plugin is
      switched to the newer one. */
  function Switched(newer: seq<string>, tokens: map<string, Token>): Host {
    Host(map[OLD := SOUND_ROW.(permissions := JOBS), NEW := SOUND_ROW.(permissions := newer, state := Enabled)],
         {NEW}, {NEW}, tokens, {Grant("p", JOBS)}, map["p" := Sweep(NEW, newer, None)])
  }

  function Checked(newer: seq<string>, tokens: map<string, Token>): Host {
    Ready(JOBS, newer).(checked := {Grant("p", JOBS)}, tokens := tokens)
  }

  lemma JobsChecked(h: Host, op: Op)
    requires OLD in h.rows && h.rows[OLD].state == Enabled && h.rows[OLD].permissions == JOBS && h.checked == {}
    requires op == DoCheck("p", Some(OLD), JOBS)
    ensures Legal(h, op) && Step(h, op) == h.(checked := {Grant("p", JOBS)})
  {
    JobsMayBeRead(h.rows, OLD);
    hide Granted, Enable, Disable, Switch, Uninstall, Install;
    assert h.checked + {Grant("p", JOBS)} == {Grant("p", JOBS)};
  }

  lemma GetsChecked(newer: seq<string>)
    ensures Leads(FRESH, Checked(newer, map[]))
  {
    GetsReady(JOBS, newer);
    JobsChecked(Ready(JOBS, newer), DoCheck("p", Some(OLD), JOBS));
    hide Granted, Leads, Step, Legal;
    Onwards(FRESH, Ready(JOBS, newer), DoCheck("p", Some(OLD), JOBS));
  }

  lemma GetsSwitched(newer: seq<string>, tokens: map<string, Token>)
    requires Leads(FRESH, Checked(newer, tokens))
    ensures Leads(FRESH, Switched(newer, tokens))
  {
    hide Leads;
    var h, op := Checked(newer, tokens), DoSwitch(NEW, Some(OLD), true, ALL_WORKS, ALL_WORKS);
    var off := Disable(h, "p", Some(OLD), ALL_WORKS);
    assert off.rows == map[OLD := SOUND_ROW.(permissions := JOBS), NEW := SOUND_ROW.(permissions := newer)];
    var t := Enable(off, NEW, ALL_WORKS);
    assert t.rows == Switched(newer, tokens).rows && EnabledKeys(t.rows) == {NEW};
    assert Switch(h, NEW, Some(OLD), true, ALL_WORKS, ALL_WORKS) == t;
    assert t == Switched(newer, tokens);
    hide Enable, Disable, Switch, Uninstall, Install;
    assert Legal(h, op) && Step(h, op) == Switched(newer, tokens);
    hide Step, Legal;
    Onwards(FRESH, h, op);
  }

  /** Scopes are checked, the plugin is switched to a version that is granted nothing, its tokens
      are swept, and the token is stored. */
  lemma LateToken()
    ensures exists t :: Leads(FRESH, t) && t.sweeps == map[] && !TokensFit(t)
  {
    GetsChecked([]);
    GetsSwitched([], map[]);
    hide Leads;
    var h := Switched([], map[]);
    var l := Step(h, DoList("p", [], true));
    assert l.sweeps == map[];
    var t := Step(l, DoCreate("p", "id", JOBS));
    Beyond(t, "id");
    Onwards(FRESH, h, DoList("p", [], true));
    Onwards(FRESH, l, DoCreate("p", "id", JOBS));
  }

  /** A token works that may do what the enabled version is not granted. */
  lemma Beyond(t: Host, id: string)
    requires IsEnabled(t.rows, NEW) && t.rows[NEW].permissions == [] && t.sweeps == map[]
    requires id in t.tokens && t.tokens[id] == Token("p", JOBS, false)
    ensures !TokensFit(t)
  {
    NothingGranted(JOBS);
    hide Subset;
  }

  /** The plugin has two tokens and is switched to a version that is granted nothing. While its
      tokens are swept the first one is revoked, and so the second keeps its scopes. */
  lemma RevokedMeanwhile()
    ensures exists t :: Leads(FRESH, t) && t.sweeps == map[] && !TokensFit(t) && t.tokens.Keys == {"1", "2"}
  {
    GetsChecked([]);
    hide Leads;
    var a := Checked([], map[]);
    var b := Step(a, DoCreate("p", "1", JOBS));
    var c := Step(b, DoCreate("p", "2", JOBS));
    var token := Token("p", JOBS, false);
    assert c == Checked([], map["1" := token, "2" := token]);
    Onwards(FRESH, a, DoCreate("p", "1", JOBS));
    Onwards(FRESH, b, DoCreate("p", "2", JOBS));
    GetsSwitched([], map["1" := token, "2" := token]);
    SweepBreaksOff(map["1" := token, "2" := token]);
  }

  lemma SweepBreaksOff(tokens: map<string, Token>)
    requires tokens == map["1" := Token("p", JOBS, false), "2" := Token("p", JOBS, false)] &&
             Leads(FRESH, Switched([], tokens))
    ensures exists t :: Leads(FRESH, t) && t.sweeps == map[] && !TokensFit(t) && t.tokens.Keys == {"1", "2"}
  {
    hide Leads, TokensFit;
    var listed := [Listed("1", JOBS), Listed("2", JOBS)];
    var a, b, c := DoList("p", listed, true), DoRevoke("p", "1"), DoNext("p", true);
    var h := Switched([], tokens);
    var l := h.(sweeps := map["p" := Sweep(NEW, [], Some(listed))]);
    var r := l.(tokens := tokens["1" := Token("p", JOBS, true)]);
    var t := r.(sweeps := map[]);
    BothListed(h, a);
    assert Step(l, b) == r by { hide Enable, Disable, Switch, Uninstall, Install, CheckScopes; }
    NextCannotWrite(r, c);
    Beyond(t, "2");
    hide Step, Legal;
    Onwards(FRESH, h, a);
    Onwards(FRESH, l, b);
    Onwards(FRESH, r, c);
  }

  lemma BothListed(h: Host, op: Op)
    requires h.tokens == map["1" := Token("p", JOBS, false), "2" := Token("p", JOBS, false)]
    requires h.sweeps == map["p" := Sweep(NEW, [], None)] &&
             op == DoList("p", [Listed("1", JOBS), Listed("2", JOBS)], true)
    ensures Legal(h, op) && Step(h, op) == h.(sweeps := map["p" := Sweep(NEW, [], Some(op.listed))])
  {
    hide Enable, Disable, Switch, Uninstall, Install, CheckScopes;
  }

  lemma NextCannotWrite(r: Host, op: Op)
    requires op == DoNext("p", true) &&
             r.sweeps == map["p" := Sweep(NEW, [], Some([Listed("1", JOBS), Listed("2", JOBS)]))]
    requires "1" in r.tokens && r.tokens["1"].revoked
    ensures Legal(r, op) && Step(r, op) == r.(sweeps := map[])
  {
    NothingGranted(JOBS);
    hide Subset, Common, Enable, Disable, Switch, Uninstall, Install, CheckScopes;
  }

  lemma JobsMayBeRead(rows: map<Key, Row>, k: Key)
    requires k in rows && rows[k].permissions == JOBS
    ensures Granted(rows, Some(k), JOBS) == Some(JOBS)
  {
    var scopes := JOBS;
    assert TrimSpace("jobs:read") == "jobs:read" by { JobsTrimmed(); }
    hide TrimSpace;
    assert scopes[..0] == [] && Distinct([]) == [] && Distinct(scopes) == [] + ["jobs:read"] == scopes;
    assert "jobs:read" in KNOWN && Recognised(scopes);
    assert "jobs:read" in rows[k].permissions && "jobs:read" in Allowed(rows[k].permissions);
  }

  lemma JobsTrimmed()
    ensures TrimSpace("jobs:read") == "jobs:read"
  {
    var s := "jobs:read";
    assert |s| == 9 && s[0] == 'j' && s[8] == 'd';
    TrimmedStays(s);
  }

  lemma NothingGranted(scopes: seq<string>)
    requires scopes != []
    ensures !Subset(scopes, [])
  {
    assert scopes[0] in scopes && Allowed([]) == {};
  }

  lemma UninstallFits(h: Host, k: Key, stopped: bool, deleted: bool)
    requires TokensClean(h) && TokensFit(h)
    ensures TokensClean(Uninstall(h, k, stopped, deleted)) && TokensFit(Uninstall(h, k, stopped, deleted))
  {
    hide TokensClean, TokensFit, Remaining;
    FewerEnabled(h, Uninstall(h, k, stopped, deleted));
  }

  // ---------- sweeps that are interrupted ----------

  /** The sweep ends before it is through. */
  predicate BreaksOff(h: Host, op: Op)
    requires Legal(h, op)
  {
    match op
    case DoList(_, _, works) => !works
    case DoNext(p, works) => !NothingToCut(h.sweeps[p]) && !Writes(h, p, works)
    case _ => false
  }

  /** No working token that the sweep has still to come to exceeds the version. */
  predicate RestIsWithin(h: Host, p: string)
    requires p in h.sweeps
  {
    forall id <- h.tokens :: Works(h.tokens[id], p) && Owed(h, id) ==>
      Subset(h.tokens[id].scopes, h.sweeps[p].permissions)
  }

  /** When a sweep breaks off, the tokens are within the enabled version exactly if those it had not
      come to are already. */
  lemma BreakFitsIff(h: Host, op: Op)
    requires Invariant(h) && Legal(h, op) && BreaksOff(h, op)
    ensures TokensFit(Step(h, op)) <==> RestIsWithin(h, op.p)
  {
    hide Subset, Clean, Sound;
    var t := Step(h, op);
    var s := h.sweeps[op.p];
    assert SweepFits(h, op.p);
    assert t == h.(sweeps := h.sweeps - {op.p});
    if TokensFit(t) {
      forall id | id in h.tokens && Works(h.tokens[id], op.p) && Owed(h, id)
        ensures Subset(h.tokens[id].scopes, s.permissions)
      {
        assert IsEnabled(t.rows, s.version) && !Owed(t, id);
      }
    }
    if RestIsWithin(h, op.p) {
      forall k, id | IsEnabled(t.rows, k) && id in t.tokens && Works(t.tokens[id], k.plugin) && !Owed(t, id)
        ensures Subset(t.tokens[id].scopes, t.rows[k].permissions)
      {
        if k.plugin == op.p { assert k == s.version; } else { assert !Owed(h, id); }
      }
    }
  }

  /** What a token operation leaves alone. */
  lemma SoundStays(h: Host, t: Host)
    requires Sound(h) && AllSingle(h.rows) && t.rows == h.rows && t.running == h.running && t.targets == h.targets
    ensures Sound(t) && AllSingle(t.rows)
  {
  }

  lemma ListFits(h: Host, op: Op)
    requires Invariant(h) && Legal(h, op) && op.DoList? && op.works
    ensures Invariant(Step(h, op))
  {
    hide Subset, Clean, Enable, Disable, Switch, Uninstall, Install;
    var t := Step(h, op);
    SoundStays(h, t);
    hide Sound;
    assert SweepFits(h, op.p);
    if op.listed != [] {
      assert t.sweeps[op.p].rest == Some(op.listed);
      assert SweepFits(t, op.p);
    }
    forall q | q in t.sweeps && q != op.p ensures SweepFits(t, q) { assert SweepFits(h, q); }
    forall id | id in h.tokens && Works(h.tokens[id], op.p) ensures Owed(t, id) {
      assert Listed(id, h.tokens[id].scopes) in op.listed;
    }
    forall id | id in h.tokens && h.tokens[id].plugin != op.p ensures Owed(t, id) == Owed(h, id) {}
  }

  /** What a turn of the loop leaves of the token. */
  lemma TurnMeans(h: Host, p: string, works: bool)
    requires SweepsFit(h) && TokensClean(h) && Legal(h, DoNext(p, works)) && !BreaksOff(h, DoNext(p, works))
    ensures var e := h.sweeps[p].rest.value[0];
            var t := NextToken(h, p, works);
            && e.id in h.tokens && t == Continue(h.(tokens := t.tokens), p, h.sweeps[p].rest.value[1..])
            && t.tokens == h.tokens[e.id := t.tokens[e.id]] && t.tokens[e.id].plugin == p
            && Clean(t.tokens[e.id].scopes) && t.tokens[e.id].scopes != []
            && (t.tokens[e.id].revoked || Subset(t.tokens[e.id].scopes, h.sweeps[p].permissions))
  {
    hide Clean, Subset, Subsequence, Common;
    assert SweepFits(h, p);
    var e := h.sweeps[p].rest.value[0];
    assert e in h.sweeps[p].rest.value;
    if !NothingToCut(h.sweeps[p]) {
      CommonMeans(e.scopes, h.sweeps[p].permissions);
      CommonFits(e.scopes, h.sweeps[p].permissions);
    } else {
      assert h.tokens == h.tokens[e.id := h.tokens[e.id]];
    }
  }

  lemma CommonFits(scopes: seq<string>, permissions: seq<string>)
    requires Clean(scopes)
    ensures Subset(Common(scopes, permissions), permissions) && Clean(Common(scopes, permissions))
  {
    hide Allowed, Subsequence, TrimSpace, Trimmed;
    CommonMeans(scopes, permissions);
  }

  lemma NextFits(h: Host, op: Op)
    requires Invariant(h) && Legal(h, op) && op.DoNext? && !BreaksOff(h, op)
    ensures Invariant(Step(h, op))
  {
    hide Subset, Clean, Common;
    var t := Step(h, op);
    TurnMeans(h, op.p, op.works);
    hide NextToken;
    assert t == NextToken(h, op.p, op.works);
    SoundStays(h, t);
    assert TokensClean(t);
    hide Sound, TokensClean;
    NextTokensFit(h, op.p, t);
    NextSweepsFit(h, op.p, t);
  }

  /** A turn of the loop that goes through. */
  ghost predicate Turn(h: Host, p: string, t: Host) {
    && SweepsFit(h) && p in h.sweeps && h.sweeps[p].rest.Some? && h.sweeps[p].rest.value != []
    && var e := h.sweeps[p].rest.value[0];
       && e.id in h.tokens && e.id in t.tokens && t.tokens == h.tokens[e.id := t.tokens[e.id]]
       && t == Continue(h.(tokens := t.tokens), p, h.sweeps[p].rest.value[1..])
       && t.tokens[e.id].plugin == p && h.tokens[e.id].plugin == p
       && (t.tokens[e.id].revoked || Subset(t.tokens[e.id].scopes, h.sweeps[p].permissions))
  }

  lemma NextTokensFit(h: Host, p: string, t: Host)
    requires Turn(h, p, t) && TokensFit(h) && AllSingle(h.rows)
    ensures TokensFit(t)
  {
    hide Subset, Clean, RestFits;
    var s := h.sweeps[p];
    var e, more := s.rest.value[0], s.rest.value[1..];
    assert SweepFits(h, p);
    forall id | id in h.tokens && id != e.id ensures Owed(t, id) == Owed(h, id) {
      assert s.rest.value == [e] + more;
      assert forall f :: f in s.rest.value <==> f == e || f in more;
    }
    forall k | IsEnabled(t.rows, k) && k.plugin == p ensures k == s.version {}
  }

  lemma NextSweepsFit(h: Host, p: string, t: Host)
    requires Turn(h, p, t)
    ensures SweepsFit(t)
  {
    hide Subset, Clean;
    var s := h.sweeps[p];
    var e, more := s.rest.value[0], s.rest.value[1..];
    forall q | q in t.sweeps ensures SweepFits(t, q) {
      assert SweepFits(h, q);
      if q == p {
        UniqueMore(s.rest.value);
        assert forall f <- more :: f in s.rest.value;
      } else if h.sweeps[q].rest.Some? {
        assert t.sweeps[q] == h.sweeps[q];
        assert forall f <- h.sweeps[q].rest.value :: h.tokens[f.id].plugin == q && f.id != e.id;
      }
    }
  }

  lemma UniqueMore(rest: seq<Listed>)
    requires UniqueIds(rest) && rest != []
    ensures UniqueIds(rest[1..])
  {
  }

  /** A token's scopes that are stored while its turn is still to come do not survive exactly if
      what was listed exceeds the version and something else is left of that. */
  lemma StoredIsLostIff(h: Host, p: string, scopes: seq<string>, works: bool)
    requires SweepsFit(h) && Legal(h, DoNext(p, works)) && works
    requires var id := h.sweeps[p].rest.value[0].id; Legal(h, DoUpdate(p, id, scopes)) && !h.tokens[id].revoked
    ensures var e := h.sweeps[p].rest.value[0]; var permissions := h.sweeps[p].permissions;
            var stored := Step(h, DoUpdate(p, e.id, scopes));
            stored.tokens[e.id].scopes == scopes && Legal(stored, DoNext(p, works)) &&
            (Step(stored, DoNext(p, works)).tokens[e.id].scopes != scopes <==>
               !Subset(e.scopes, permissions) && Common(e.scopes, permissions) != [] &&
               Common(e.scopes, permissions) != scopes)
  {
    hide Subset, Common, SweepsFit;
  }

  // ---------- every run ----------

  const TWO := ["jobs:read", "query:read"]
  const OTHERS := ["query:read", "nginx:read"]

  lemma QueryIsLeft()
    ensures Common(TWO, OTHERS) == ["query:read"] && !Subset(TWO, OTHERS)
  {
    TrimmedStays("jobs:read");
    TrimmedStays("query:read");
    TrimmedStays("nginx:read");
    hide TrimSpace;
    assert OTHERS[0] == "query:read" && OTHERS[1] == "nginx:read";
    assert Allowed(OTHERS) == {"query:read", "nginx:read"};
    hide Allowed;
    assert TWO[..1] == ["jobs:read"] && ["jobs:read"][..0] == [];
    assert Common([], OTHERS) == [] && Common(["jobs:read"], OTHERS) == [];
    assert TWO[0] in TWO;
  }

  /** A token is listed with two scopes, one of which the version is granted; its owner changes it to
      another that the version is granted, and the sweep writes the first one back. */
  lemma ChangeIsUndone(h: Host)
    requires h.tokens == map["1" := Token("p", TWO, false)] && Grant("p", ["nginx:read"]) in h.checked
    requires h.sweeps == map["p" := Sweep(NEW, OTHERS, Some([Listed("1", TWO)]))]
    ensures var a, b := DoUpdate("p", "1", ["nginx:read"]), DoNext("p", true);
            Legal(h, a) && Legal(Step(h, a), b) && Step(Step(h, a), b).tokens["1"] == Token("p", ["query:read"], false)
  {
    QueryIsLeft();
    hide Common, Subset, Enable, Disable, Switch, Uninstall, Install, CheckScopes;
    var a := DoUpdate("p", "1", ["nginx:read"]);
    assert Step(h, a) == h.(tokens := map["1" := Token("p", ["nginx:read"], false)]);
  }

  /** What must not happen: enabling beside an enabled version, losing track of a process, storing
      scopes that a switch has withdrawn since they were checked, and breaking off a sweep before
      all tokens are within the version. */
  ghost predicate Orderly(h: Host, op: Op)
    requires Legal(h, op)
  {
    match op
    case DoEnable(k, _) => Alone(h.rows, k)
    case DoUninstall(k, stopped, _) => !LosesTrack(h, k, stopped)
    case DoCreate(p, id, scopes) => StillGranted(h.rows, p, scopes) || Awaited(h, p, id, scopes)
    case DoUpdate(p, id, scopes) => StillGranted(h.rows, p, scopes) || Awaited(h, p, id, scopes)
    case DoList(p, _, _) => BreaksOff(h, op) ==> RestIsWithin(h, p)
    case DoNext(p, _) => BreaksOff(h, op) ==> RestIsWithin(h, p)
    case _ => true
  }

  lemma LifecycleStep(h: Host, op: Op)
    requires Invariant(h) && Legal(h, op) && Orderly(h, op)
    requires op.DoEnable? || op.DoDisable? || op.DoSwitch? || op.DoUninstall?
    ensures Invariant(Step(h, op))
  {
    hide Enable, Disable, Switch, Uninstall, TokensClean, TokensFit, Sound, SweepsFit;
    if Refused(h, op) { return; }
    match op
    case DoEnable(k, up) =>
      EnableIsSound(h, k, up);
      EnableIsSingleIff(h, k, up);
      EnableFits(h, k, up);
      EnableSweeps(h, k, up);
    case DoDisable(p, found, down) =>
      DisableIsSound(h, p, found, down);
      DisableIsSingle(h, p, found, down);
      DisableFits(h, p, found, down);
      DisableSweeps(h, p, found, down);
    case DoSwitch(k, found, migrates, down, up) =>
      SwitchIsSound(h, k, found, migrates, down, up);
      SwitchIsSingle(h, k, found, migrates, down, up);
      SwitchFits(h, k, found, migrates, down, up);
      SwitchSweeps(h, k, found, migrates, down, up);
    case DoUninstall(k, stopped, deleted) =>
      UninstallIsSoundIff(h, k, stopped, deleted);
      UninstallIsSingle(h, k, stopped, deleted);
      UninstallFits(h, k, stopped, deleted);
      UninstallSweeps(h, k, stopped, deleted);
  }

  lemma DisableIsSingle(h: Host, p: string, found: Option<Key>, a: Answers)
    requires AllSingle(h.rows) && Finds(h.rows, p, found)
    ensures AllSingle(Disable(h, p, found, a).rows)
  {
    assert forall l :: IsEnabled(Disable(h, p, found, a).rows, l) ==> IsEnabled(h.rows, l);
  }

  lemma UninstallIsSingle(h: Host, k: Key, stopped: bool, deleted: bool)
    requires AllSingle(h.rows)
    ensures AllSingle(Uninstall(h, k, stopped, deleted).rows)
  {
    assert forall l :: IsEnabled(Uninstall(h, k, stopped, deleted).rows, l) ==> IsEnabled(h.rows, l);
  }

  /** Rows that are not enabled may come, go and change, if nothing runs under their names. */
  lemma OtherRows(h: Host, rows: map<Key, Row>)
    requires Invariant(h)
    requires forall l :: IsEnabled(rows, l) <==> IsEnabled(h.rows, l)
    requires forall l <- rows :: (l in h.rows && rows[l] == h.rows[l]) || (!Transient(rows[l].state) && l !in h.running)
    requires forall l <- h.rows :: (l in rows && rows[l] == h.rows[l]) || l !in h.running
    ensures Invariant(h.(rows := rows))
  {
    hide Clean, Subset, RestFits;
    assert forall l :: IsEnabled(h.rows, l) ==> l in h.running && l in rows && rows[l] == h.rows[l];
    var t := h.(rows := rows);
    forall p | p in t.sweeps ensures SweepFits(t, p) { assert SweepFits(h, p); }
    forall id | id in h.tokens ensures Owed(t, id) == Owed(h, id) {}
  }

  lemma RegistryStep(h: Host, op: Op)
    requires Invariant(h) && Legal(h, op) && (op.DoInstall? || op.DoPurge?)
    ensures Invariant(Step(h, op))
  {
    hide AllSingle, TokensClean, TokensFit, SweepsFit, Enable, Disable, Switch, Uninstall;
    var rows := Step(h, op).rows;
    assert op.k in h.rows && (MayInstall(h.rows, op.k, true) || h.rows[op.k].state == Uninstalled) ==>
             op.k !in h.running;
    if Step(h, op) != h { OtherRows(h, rows); }
  }

  lemma RevokeFits(h: Host, p: string, id: string)
    requires Invariant(h)
    ensures Invariant(Revoke(h, p, id))
  {
    hide Clean, Subset, Sound;
    var t := Revoke(h, p, id);
    SoundStays(h, t);
    forall q | q in t.sweeps ensures SweepFits(t, q) { assert SweepFits(h, q); }
    forall i | i in h.tokens ensures Owed(t, i) == Owed(h, i) {}
  }

  lemma CheckFits(h: Host, p: string, found: Option<Key>, scopes: seq<string>)
    requires Invariant(h) && Finds(h.rows, p, found)
    ensures Invariant(CheckScopes(h, p, found, scopes))
  {
    hide Clean, Subset, Sound, Granted, StillGranted, RestFits;
    var t := CheckScopes(h, p, found, scopes);
    SoundStays(h, t);
    if Granted(h.rows, found, scopes).Some? { CheckedIsGranted(h, p, found, scopes); }
    forall q | q in t.sweeps ensures SweepFits(t, q) { assert SweepFits(h, q); }
    forall i | i in h.tokens ensures Owed(t, i) == Owed(h, i) {}
  }

  lemma BreakStep(h: Host, op: Op)
    requires Invariant(h) && Legal(h, op) && BreaksOff(h, op) && RestIsWithin(h, op.p)
    ensures Invariant(Step(h, op))
  {
    BreakFitsIff(h, op);
    hide Clean, Subset, Sound, RestFits, TokensFit;
    var t := Step(h, op);
    assert t == h.(sweeps := h.sweeps - {op.p});
    SoundStays(h, t);
    forall q | q in t.sweeps ensures SweepFits(t, q) { assert SweepFits(h, q); }
  }

  lemma TokenStep(h: Host, op: Op)
    requires Invariant(h) && Legal(h, op) && Orderly(h, op)
    requires op.DoCheck? || op.DoCreate? || op.DoUpdate? || op.DoRevoke? || op.DoList? || op.DoNext?
    ensures Invariant(Step(h, op))
  {
    hide Clean, Subset, Granted, StillGranted, Awaited, TokensClean, TokensFit, SweepsFit, Sound, AllSingle,
         RestIsWithin;
    match op
    case DoCheck(p, found, scopes) => CheckFits(h, p, found, scopes);
    case DoCreate(p, id, scopes) => SoundStays(h, Step(h, op)); if id !in h.tokens { StoreFitsIff(h, op); }
    case DoUpdate(p, id, scopes) => SoundStays(h, Step(h, op)); if !h.tokens[id].revoked { StoreFitsIff(h, op); }
    case DoRevoke(p, id) => RevokeFits(h, p, id);
    case DoList(p, listed, works) => if works { ListFits(h, op); } else { BreakStep(h, op); }
    case DoNext(p, works) => if BreaksOff(h, op) { BreakStep(h, op); } else { NextFits(h, op); }
  }

  ghost predicate OrderlyRun(h: Host, ops: seq<Op>)
    requires LegalRun(h, ops)
    decreases ops
  {
    ops == [] || (Orderly(h, ops[0]) && OrderlyRun(Step(h, ops[0]), ops[1..]))
  }

  /** Over every run, whatever fails outside: the books are straight, no plugin has two
      enabled versions, and no working token exceeds what the enabled version is granted. */
  lemma {:induction false} RunKeepsInvariant(h: Host, ops: seq<Op>)
    requires Invariant(h) && LegalRun(h, ops) && OrderlyRun(h, ops)
    ensures Invariant(Run(h, ops))
    decreases ops
  {
    hide Step, Invariant;
    if ops != [] {
      var op := ops[0];
      if op.DoEnable? || op.DoDisable? || op.DoSwitch? || op.DoUninstall? {
        LifecycleStep(h, op);
      } else if op.DoInstall? || op.DoPurge? {
        RegistryStep(h, op);
      } else {
        TokenStep(h, op);
      }
      RunKeepsInvariant(Step(h, op), ops[1..]);
    }
  }

  lemma FreshIsFine()
    ensures Invariant(FRESH)
  {
  }

  lemma FromTheStart(ops: seq<Op>)
    requires LegalRun(FRESH, ops) && OrderlyRun(FRESH, ops)
    ensures Invariant(Run(FRESH, ops))
    ensures var h := Run(FRESH, ops);
            forall k, id ::
              IsEnabled(h.rows, k) && id in h.tokens && Works(h.tokens[id], k.plugin) && k.plugin !in h.sweeps ==>
              Subset(h.tokens[id].scopes, h.rows[k].permissions)
  {
    FreshIsFine();
    RunKeepsInvariant(FRESH, ops);
    hide Subset, Clean, Sound, Run, LegalRun, OrderlyRun;
  }

  /** It is the token's turn, and it has changed since it was listed. */
  predicate Outdated(h: Host, op: Op, id: string)
    requires Legal(h, op) && id in h.tokens
  {
    op.DoNext? && var e := h.sweeps[op.p].rest.value[0]; e.id == id && e.scopes != h.tokens[id].scopes
  }

  /** Nothing but an explicit change of its scopes gives a token anything, except that a sweep may
      write an outdated list, and nothing touches a revoked one. */
  lemma StepNarrows(h: Host, op: Op, id: string)
    requires Legal(h, op) && TokensClean(h) && id in h.tokens
    ensures var t := Step(h, op).tokens;
            && id in t && t[id].plugin == h.tokens[id].plugin
            && (h.tokens[id].revoked ==> t[id] == h.tokens[id])
            && ((op.DoUpdate? && op.id == id) || Outdated(h, op, id) || Subsequence(t[id].scopes, h.tokens[id].scopes))
  {
    hide Subsequence, Clean, Granted, EnabledKeys, OfPlugin, Subset, Remaining, Common, Lists;
    SubsequenceOfItself(h.tokens[id].scopes);
    if op.DoNext? { CommonMeans(h.tokens[id].scopes, h.sweeps[op.p].permissions); }
  }

  /** Revocation is permanent. */
  lemma {:induction false} RevokedForever(h: Host, ops: seq<Op>, id: string)
    requires LegalRun(h, ops) && id in h.tokens && h.tokens[id].revoked
    ensures id in Run(h, ops).tokens && Run(h, ops).tokens[id] == h.tokens[id]
    decreases ops
  {
    hide Step;
    if ops != [] {
      RevokedStays(h, ops[0], id);
      RevokedForever(Step(h, ops[0]), ops[1..], id);
    }
  }

  lemma RevokedStays(h: Host, op: Op, id: string)
    requires Legal(h, op) && id in h.tokens && h.tokens[id].revoked
    ensures id in Step(h, op).tokens && Step(h, op).tokens[id] == h.tokens[id]
  {
    hide Granted, EnabledKeys, OfPlugin, Subset, Remaining, Common, Lists;
  }

  // ---------- the last version goes ----------

  /** Uninstalling revokes exactly the tokens of the plugin, and only if no other version of it is left
      and everything works; no other token changes. */
  lemma UninstallRevokesIff(h: Host, k: Key, stopped: bool, deleted: bool, id: string)
    requires k in h.rows && id in h.tokens && k.plugin !in h.sweeps
    ensures var t := Step(h, DoUninstall(k, stopped, deleted)).tokens;
            var last := h.rows[k].state in {Installed, InstallFailed, EnableFailed} && stopped && deleted &&
                        forall l <- h.rows :: l != k && l.plugin == k.plugin ==> h.rows[l].state == Uninstalled;
            t.Keys == h.tokens.Keys &&
            t[id] == if last && h.tokens[id].plugin == k.plugin then h.tokens[id].(revoked := true) else h.tokens[id]
  {
    hide Enable, Disable, Switch, Install;
    var rows := SetState(h.rows, k, Uninstalled, NoFailure);
    if Remaining(rows, k.plugin) {
      var l :| l in rows && l.plugin == k.plugin && rows[l].state != Uninstalled;
      assert l != k && h.rows[l].state != Uninstalled;
    } else {
      forall l | l in h.rows && l != k && l.plugin == k.plugin
        ensures h.rows[l].state == Uninstalled { assert l in rows; }
    }
  }

  /** When the last version has gone, the tokens that its plugin had stay revoked over every run, even
      if the plugin is installed and enabled again. */
  lemma GoneForGood(h: Host, k: Key, ops: seq<Op>, id: string)
    requires k in h.rows && h.rows[k].state in {Installed, InstallFailed, EnableFailed} && k.plugin !in h.sweeps
    requires forall l <- h.rows :: l != k && l.plugin == k.plugin ==> h.rows[l].state == Uninstalled
    requires id in h.tokens && h.tokens[id].plugin == k.plugin
    requires LegalRun(Step(h, DoUninstall(k, true, true)), ops)
    ensures var t := Run(Step(h, DoUninstall(k, true, true)), ops).tokens; id in t && t[id].revoked
  {
    UninstallRevokesIff(h, k, true, true, id);
    hide Step;
    RevokedForever(Step(h, DoUninstall(k, true, true)), ops, id);
  }

  // ---------- sweeps that nothing interrupts ----------

  /** Sweeps are of tokens of their plugin. */
  predicate Owned(h: Host) {
    forall p <- h.sweeps :: h.sweeps[p].rest.Some? ==>
      forall e <- h.sweeps[p].rest.value :: e.id in h.tokens && h.tokens[e.id].plugin == p
  }

  /** The tokens still to come all work. */
  predicate RestWorks(h: Host, p: string) {
    p in h.sweeps && h.sweeps[p].rest.Some? ==>
      UniqueIds(h.sweeps[p].rest.value) &&
      forall e <- h.sweeps[p].rest.value :: e.id in h.tokens && !h.tokens[e.id].revoked
  }

  /** Nobody revokes a token of the plugin, and what a sweep reads and writes works. */
  predicate Quiet(op: Op, p: string) {
    && !(op.DoRevoke? && op.p == p)
    && (op.DoList? || op.DoNext? ==> op.works)
  }

  lemma StepKeepsPlugins(h: Host, op: Op)
    requires Legal(h, op)
    ensures forall id <- h.tokens :: id in Step(h, op).tokens && Step(h, op).tokens[id].plugin == h.tokens[id].plugin
  {
    hide Granted, EnabledKeys, OfPlugin, Subset, Remaining, Common, Lists;
  }

  lemma StepKeepsOwned(h: Host, op: Op)
    requires Legal(h, op) && Owned(h)
    ensures Owned(Step(h, op))
  {
    StepKeepsPlugins(h, op);
    if !op.DoList? && !op.DoNext? { OthersListNothing(h, op); }
    hide Granted, EnabledKeys, OfPlugin, Subset, Remaining, Common, RevokeAll, Enable, Switch, Disable, Uninstall,
         Install;
  }

  lemma OthersListNothing(h: Host, op: Op)
    requires Legal(h, op) && !op.DoList? && !op.DoNext?
    ensures forall p <- Step(h, op).sweeps :: Step(h, op).sweeps[p].rest.Some? ==>
              p in h.sweeps && h.sweeps[p] == Step(h, op).sweeps[p]
  {
    hide Granted, EnabledKeys, OfPlugin, Subset, Remaining, Common, RevokeAll;
  }

  lemma StepKeepsWorking(h: Host, op: Op, p: string)
    requires Legal(h, op) && Owned(h) && RestWorks(h, p) && Quiet(op, p)
    ensures RestWorks(Step(h, op), p)
  {
    hide Granted, EnabledKeys, OfPlugin, Subset, Remaining, Common;
    if !op.DoList? && !op.DoNext? { OthersListNothing(h, op); }
  }

  predicate NeverBreaksOff(h: Host, ops: seq<Op>, p: string)
    requires LegalRun(h, ops)
    decreases ops
  {
    ops == [] ||
    ((ops[0].DoList? || ops[0].DoNext? ==> ops[0].p == p ==> !BreaksOff(h, ops[0])) &&
     NeverBreaksOff(Step(h, ops[0]), ops[1..], p))
  }

  /** Over every run in which nobody revokes a token of the plugin by hand, and reads and writes
      work, no sweep of the plugin breaks off, whatever tokens are created or changed. */
  lemma {:induction false} QuietSweeps(h: Host, ops: seq<Op>, p: string)
    requires LegalRun(h, ops) && Owned(h) && RestWorks(h, p)
    requires forall op <- ops :: Quiet(op, p)
    ensures NeverBreaksOff(h, ops, p)
    decreases ops
  {
    hide Step, Owned;
    if ops != [] {
      assert ops[0] in ops && forall op <- ops[1..] :: op in ops;
      StepKeepsOwned(h, ops[0]);
      StepKeepsWorking(h, ops[0], p);
      QuietSweeps(Step(h, ops[0]), ops[1..], p);
    }
  }

  // ---------- the service ----------

  predicate AllUninstalled(rows: map<Key, Row>, p: string) {
    forall l <- rows :: l.plugin == p ==> rows[l].state == Uninstalled
  }

  lemma RemainingIff(rows: map<Key, Row>, p: string)
    ensures Remaining(rows, p) <==> !AllUninstalled(rows, p)
  {
  }

  lemma OtherRowStays(h: Host, p: string, found: Option<Key>, a: Answers, k: Key)
    requires Finds(h.rows, p, found) && found != Some(k)
    ensures var t := Disable(h, p, found, a); (k in t.rows <==> k in h.rows) && (k in h.rows ==> t.rows[k] == h.rows[k])
  {
    hide EnabledKeys, OfPlugin;
  }

  /** The service as the code runs it, one call after the other. What the outside answers is
      given, and what the registry finds. */
  class Service {
    var rows: map<Key, Row>
    var running: set<Key>
    var targets: set<Key>
    var tokens: map<string, Token>
    ghost var checked: set<Grant>
    var sweeps: map<string, Sweep>

    constructor ()
      ensures Now() == FRESH
    {
      rows, running, targets, tokens, checked, sweeps := map[], {}, {}, map[], {}, map[];
    }

    ghost function Now(): Host
      reads this
    {
      Host(rows, running, targets, tokens, checked, sweeps)
    }

    method Set(k: Key, state: State, failure: Failure)
      requires k in rows
      modifies this`rows
      ensures rows == SetState(old(rows), k, state, failure)
    {
      rows := rows[k := rows[k].(state := state, failure := failure)];
    }

    method Start(k: Key, works: bool)
      modifies this`running
      ensures running == if works then old(running) + {k} else old(running)
    {
      if works { running := running + {k}; }
    }

    /** A Stop that fails leaves the process running. */
    method Stop(k: Key, works: bool)
      modifies this`running
      ensures running == if works then old(running) - {k} else old(running)
    {
      if works { running := running - {k}; }
    }

    method RefreshEnabled(works: bool)
      modifies this`targets
      ensures targets == if works then EnabledKeys(rows) else old(targets)
    {
      if works { targets := set k | k in rows && rows[k].state == Enabled; }
    }

    /** findForEnable: the version that is named, or else the newest of those that may be enabled,
        as the registry lists them. */
    method FindForEnable(p: string, version: string, listed: seq<string>) returns (r: Option<Key>)
      requires forall v :: v in listed <==>
                 Key(p, v) in rows && (rows[Key(p, v)].state == Installed || rows[Key(p, v)].state == EnableFailed)
      ensures TrimSpace(version) != "" ==> r == if Key(p, version) in rows then Some(Key(p, version)) else None
      ensures TrimSpace(version) == "" ==>
                (r.None? <==> listed == []) &&
                (r.Some? ==>
                   r.value in rows && exists i: nat :: Versions.InFront(listed, i) && r.value == Key(p, listed[i]))
    {
      if TrimSpace(version) == "" {
        var i := Versions.Newest(listed);
        if i == None { return None; }
        assert listed[i.value] in listed;
        return Some(Key(p, listed[i.value]));
      }
      return if Key(p, version) in rows then Some(Key(p, version)) else None;
    }

    // An operation on a plugin whose tokens are swept does not get the lock, as in Step.

    /** All but the sweep that comes after it, during which the plugin stays locked. */
    method EnableUnlocked(k: Key, a: Answers) returns (ok: bool)
      requires k.plugin !in sweeps
      modifies this
      ensures Now() == Enable(old(Now()), k, a)
      ensures ok <==> Enables(old(rows), k, a)
      ensures ok ==> IsEnabled(rows, k)
    {
      hide SetState, EnabledKeys;
      if k !in rows { return false; }
      var row := rows[k];
      if row.unacknowledged { return false; }
      if row.state == EnableFailed && row.failure == CompensationFailed { return false; }
      if row.state != Installed && row.state != EnableFailed { return false; }
      if !row.compatible { return false; }
      Set(k, Enabling, NoFailure);
      Start(k, a.starts);
      if !a.starts {
        Set(k, EnableFailed, StartFailed);
        SetTwice(old(rows), k, Enabling, NoFailure, EnableFailed, StartFailed);
        return false;
      }
      Set(k, Enabled, NoFailure);
      SetTwice(old(rows), k, Enabling, NoFailure, Enabled, NoFailure);
      RefreshEnabled(a.refreshes);
      if !a.refreshes {
        Stop(k, a.stops);
        if !a.stops {
          Set(k, EnableFailed, CompensationFailed);
          return false;
        }
        assert running == old(running) - {k};
        Set(k, EnableFailed, HookRefreshFailed);
        RefreshEnabled(a.again);
        return false;
      }
      sweeps := sweeps[k.plugin := Sweep(k, rows[k].permissions, None)];
      return true;
    }

    method EnableVersion(k: Key, a: Answers) returns (ok: bool)
      modifies this
      ensures Now() == if k.plugin in old(sweeps) then old(Now()) else Enable(old(Now()), k, a)
      ensures ok <==> k.plugin !in old(sweeps) && Enables(old(rows), k, a)
      ensures ok ==> IsEnabled(rows, k)
    {
      hide Enable;
      if k.plugin in sweeps { return false; }
      ok := EnableUnlocked(k, a);
    }

    method DisablePlugin(p: string, found: Option<Key>, a: Answers) returns (ok: bool)
      requires Finds(rows, p, found)
      modifies this
      ensures Now() == if p in old(sweeps) then old(Now()) else Disable(old(Now()), p, found, a)
      ensures ok <==> p !in old(sweeps) && Disables(found, a)
    {
      hide Disable;
      if p in sweeps { return false; }
      ok := DisableUnlocked(p, found, a);
    }

    method DisableUnlocked(p: string, found: Option<Key>, a: Answers) returns (ok: bool)
      requires Finds(rows, p, found) && p !in sweeps
      modifies this
      ensures Now() == Disable(old(Now()), p, found, a) && sweeps == old(sweeps)
      ensures ok == Disables(found, a)
    {
      hide SetState, EnabledKeys, OfPlugin;
      if found == None { return false; }
      var k := found.value;
      Set(k, Disabling, NoFailure);
      if !a.unhooks {
        Set(k, Enabled, HookRefreshFailed);
        SetTwice(old(rows), k, Disabling, NoFailure, Enabled, HookRefreshFailed);
        return false;
      }
      targets := targets - OfPlugin(targets, p);
      Stop(k, a.stops);
      if !a.stops {
        Set(k, Enabled, StopFailed);
        SetTwice(old(rows), k, Disabling, NoFailure, Enabled, StopFailed);
        StillEnabled(old(rows), k, StopFailed);
        RefreshEnabled(a.refreshes);
        if !a.refreshes {
          Set(k, Enabled, CompensationFailed);
          SetTwice(old(rows), k, Enabled, StopFailed, Enabled, CompensationFailed);
        }
        return false;
      }
      Set(k, Installed, NoFailure);
      SetTwice(old(rows), k, Disabling, NoFailure, Installed, NoFailure);
      RefreshEnabled(a.refreshes);
      if !a.refreshes {
        Set(k, Installed, HookRefreshFailed);
        return false;
      }
      return true;
    }

    method SwitchEnabledVersion(k: Key, found: Option<Key>, migrates: bool, down: Answers, up: Answers)
      returns (ok: bool)
      requires Finds(rows, k.plugin, found)
      modifies this
      ensures Now() == if k.plugin in old(sweeps) then old(Now()) else Switch(old(Now()), k, found, migrates, down, up)
      ensures ok <==> k.plugin !in old(sweeps) && Switches(old(rows), k, found, migrates, down, up)
      ensures ok ==> IsEnabled(rows, k)
    {
      hide Enable, Disable, Install, Uninstall, EnabledKeys, OfPlugin;
      if k.plugin in sweeps { return false; }
      if found.Some? {
        assert found.value.plugin == k.plugin;
        if found.value.version == k.version { return true; }
        if k !in rows || !rows[k].compatible { return false; }
        if rows[k].state == EnableFailed && rows[k].failure == CompensationFailed { return false; }
        if rows[k].state != Installed && rows[k].state != EnableFailed { return false; }
        if !migrates {
          Set(k, Installed, ConfigMigrationFailed);
          return false;
        }
        OtherRowStays(Now(), k.plugin, found, down, k);
        ok := DisableUnlocked(k.plugin, found, down);
        if !ok { return; }
      }
      ok := EnableUnlocked(k, up);
    }

    method UninstallVersion(k: Key, stopped: bool, deleted: bool) returns (ok: bool)
      modifies this
      ensures Now() == if k.plugin in old(sweeps) then old(Now()) else Uninstall(old(Now()), k, stopped, deleted)
      ensures ok <==> k.plugin !in old(sweeps) && k in old(rows) && Stable(old(rows)[k].state) && stopped && deleted
      ensures ok ==> rows[k].state == Uninstalled && k !in running
      ensures tokens.Keys == old(tokens).Keys
      ensures forall id <- tokens ::
                tokens[id] == if ok && old(tokens)[id].plugin == k.plugin && AllUninstalled(rows, k.plugin)
                              then old(tokens)[id].(revoked := true) else old(tokens)[id]
    {
      hide SetState, Remaining, Enable, Disable, Switch, Install;
      if k.plugin in sweeps { return false; }
      if k !in rows { return false; }
      if rows[k].state != Installed && rows[k].state != InstallFailed && rows[k].state != EnableFailed { return false; }
      Set(k, Uninstalling, NoFailure);
      Stop(k, stopped);
      if !stopped {
        Set(k, Installed, StopFailed);
        SetTwice(old(rows), k, Uninstalling, NoFailure, Installed, StopFailed);
        return false;
      }
      if !deleted {
        Set(k, Installed, FsDeleteFailed);
        SetTwice(old(rows), k, Uninstalling, NoFailure, Installed, FsDeleteFailed);
        return false;
      }
      Set(k, Uninstalled, NoFailure);
      SetTwice(old(rows), k, Uninstalling, NoFailure, Uninstalled, NoFailure);
      RemainingIff(rows, k.plugin);
      if !Remaining(rows, k.plugin) { tokens := RevokeAll(tokens, k.plugin); }
      return true;
    }

    method Advance(p: string, rest: seq<Listed>)
      requires p in sweeps
      modifies this`sweeps
      ensures Now() == Continue(old(Now()), p, rest)
    {
      sweeps := if rest == [] then sweeps - {p} else sweeps[p := sweeps[p].(rest := Some(rest))];
    }

    /** The first step of ReconcileAfterSwitch. */
    method ListActive(p: string, listed: seq<Listed>, works: bool)
      requires p in sweeps && sweeps[p].rest.None? && Lists(tokens, p, listed)
      modifies this`sweeps
      ensures Now() == Step(old(Now()), DoList(p, listed, works))
    {
      hide Lists;
      if works { Advance(p, listed); } else { sweeps := sweeps - {p}; }
    }

    /** One turn of its loop: a token is left as it is, cut down, or revoked. */
    method ReconcileNext(p: string, works: bool) returns (ok: bool)
      requires p in sweeps && sweeps[p].rest.Some? && sweeps[p].rest.value != []
      modifies this`tokens, this`sweeps
      ensures Now() == Step(old(Now()), DoNext(p, works)) && ok == !BreaksOff(old(Now()), DoNext(p, works))
    {
      hide Subset, Common;
      var s := sweeps[p];
      var e := s.rest.value[0];
      var subset := SubsetOfManifest(e.scopes, s.permissions);
      if !subset {
        var truncated := Intersect(e.scopes, s.permissions);
        if !works || e.id !in tokens || tokens[e.id].revoked {
          sweeps := sweeps - {p};
          return false;
        }
        if truncated == [] {
          tokens := tokens[e.id := tokens[e.id].(revoked := true)];
        } else {
          tokens := tokens[e.id := tokens[e.id].(scopes := truncated)];
        }
      }
      Advance(p, s.rest.value[1..]);
      return true;
    }

    /** If nothing comes between its steps it reconciles every token. */
    method ReconcileAfterSwitch(p: string, listed: seq<Listed>)
      requires p in sweeps && sweeps[p].rest.None? && Lists(tokens, p, listed)
      modifies this`tokens, this`sweeps
      ensures Now() == Swept(old(Now()), p)
    {
      hide Subset, Common;
      ghost var start := Now();
      ghost var i := 0;
      ListActive(p, listed, true);
      hide Lists, Reconciled, HalfSwept;
      assert HalfSwept(start, p, listed, 0, Now()) by { SweepBegins(start, p, listed, Now()); }
      while p in sweeps
        invariant i <= |listed|
        invariant HalfSwept(start, p, listed, i, Now())
        decreases |listed| - i
      {
        SweepGoesOn(start, p, listed, i, Now());
        var ok := ReconcileNext(p, true);
        i := i + 1;
      }
      SweepIsOver(start, p, listed, i, Now());
    }

    /** The check in front of every store. */
    method CheckGrant(p: string, found: Option<Key>, scopes: seq<string>) returns (r: Option<seq<string>>)
      requires Finds(rows, p, found)
      modifies this`checked
      ensures Now() == CheckScopes(old(Now()), p, found, scopes) && r == Granted(rows, found, scopes)
      ensures r.Some? ==> Grant(p, r.value) in checked
    {
      if found == None { return None; }
      var normalized := NormalizeScopes(scopes);
      if normalized == None { return None; }
      var subset := SubsetOfManifest(normalized.value, rows[found.value].permissions);
      if !subset { return None; }
      checked := checked + {Grant(p, normalized.value)};
      return normalized;
    }

    method InsertToken(p: string, id: string, scopes: seq<string>) returns (ok: bool)
      requires Grant(p, scopes) in checked
      modifies this`tokens
      ensures Now() == CreateToken(old(Now()), p, id, scopes) && ok == (id !in old(tokens))
    {
      if id in tokens { return false; }
      tokens := tokens[id := Token(p, scopes, false)];
      return true;
    }

    /** Whether the token may be changed: it is the plugin's own and not revoked. */
    method FindToken(p: string, id: string) returns (ok: bool)
      ensures ok <==> id in tokens && Works(tokens[id], p)
    {
      if id !in tokens { return false; }
      if tokens[id].plugin != p { return false; }
      return !tokens[id].revoked;
    }

    /** UpdateScopes, if nothing comes between its steps. */
    method ChangeScopes(p: string, found: Option<Key>, id: string, scopes: seq<string>) returns (r: Option<seq<string>>)
      requires Finds(rows, p, found)
      modifies this`checked, this`tokens
      ensures Invariant(old(Now())) ==> Invariant(Now())
      ensures r.Some? <==> Granted(rows, found, scopes).Some? && id in old(tokens) && Works(old(tokens)[id], p)
      ensures r.Some? ==> r == Granted(rows, found, scopes) && tokens == old(tokens)[id := Token(p, r.value, false)]
      ensures r.Some? && Single(rows, p) ==> r.value != [] && Clean(r.value) && StillGranted(rows, p, r.value)
      ensures r.None? ==> tokens == old(tokens)
    {
      hide Granted, Invariant, Clean, StillGranted, Single;
      ghost var start := Now();
      r := CheckGrant(p, found, scopes);
      if Single(rows, p) && r.Some? { CheckedIsGranted(start, p, found, scopes); }
      if Invariant(start) {
        TokenStep(start, DoCheck(p, found, scopes));
        if r.Some? { CheckedIsOrderly(start, p, found, scopes); }
      }
      if r == None { return; }
      var working := FindToken(p, id);
      if !working { return None; }
      if Invariant(start) { TokenStep(Now(), DoUpdate(p, id, r.value)); }
      var ok := StoreScopes(p, id, r.value);
    }

    /** By then the token may have been revoked. */
    method StoreScopes(p: string, id: string, scopes: seq<string>) returns (ok: bool)
      requires Grant(p, scopes) in checked && id in tokens && tokens[id].plugin == p
      modifies this`tokens
      ensures Now() == UpdateScopes(old(Now()), id, scopes) && ok == !old(tokens)[id].revoked
    {
      if tokens[id].revoked { return false; }
      tokens := tokens[id := tokens[id].(scopes := scopes)];
      return true;
    }

    method InstallVersion(k: Key, manifest: Row, bundled: bool, accepted: bool, stored: bool, valid: bool)
      returns (ok: bool)
      modifies this`rows
      ensures Now() == if k.plugin in old(sweeps) then old(Now())
                       else Install(old(Now()), k, manifest, bundled, accepted, stored, valid)
      ensures ok <==> k.plugin !in old(sweeps) && accepted && stored && valid && MayInstall(old(rows), k, bundled)
    {
      hide Enable, Disable, Switch, Uninstall;
      if !accepted || k.plugin in sweeps { return false; }
      if k in rows {
        match rows[k].state
        case InstallFailed =>
        case Uninstalled => if !bundled { return false; }
        case _ => return false;
      }
      if !stored { return false; }
      rows := rows[k := manifest.(state := Installing, failure := NoFailure)];
      if !valid {
        Set(k, InstallFailed, Invalid);
        return false;
      }
      Set(k, Installed, NoFailure);
      return true;
    }

    method PurgeVersion(k: Key) returns (ok: bool)
      modifies this`rows
      ensures Now() == Purge(old(Now()), k)
      ensures ok <==> k in old(rows) && old(rows)[k].state == Uninstalled
    {
      if k !in rows || rows[k].state != Uninstalled { return false; }
      rows := rows - {k};
      return true;
    }

    method RevokeToken(p: string, id: string) returns (ok: bool)
      modifies this`tokens
      ensures Now() == Revoke(old(Now()), p, id)
    {
      if id !in tokens || tokens[id].plugin != p { return false; }
      ok := !tokens[id].revoked;
      tokens := tokens[id := tokens[id].(revoked := true)];
    }
  }
}

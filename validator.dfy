/**
 * Validation of a WebSocket upgrade request (`validate`): the request URL
 * names a wire-format version and a base64-encoded project name, optionally
 * marked for debug with a leading `$`; the project is looked up by name and
 * either a session descriptor is resolved or the upgrade is rejected.
 */
module ConnectionValidator {
  import opened Wrappers
  import opened Strings
  import opened Values

  /** A project as the project collection stores it; `rest` is every other field of the document. */
  datatype ProjectDoc = ProjectDoc(id: string, name: string, config: Value, rest: Value)

  /** The read-only copy of a project that a session carries. */
  datatype Project = Project(id: string, name: string, config: Value)

  /** The protocol-level session: its project, a fresh id, the wire-format version and the debug flag. */
  datatype SessionInfo = SessionInfo(project: Project, id: string, version: real, debug: bool)

  /**
   * Why an upgrade was refused. The source also has a "missing project name"
   * rejection, guarded by `if (url)` on an array, which JavaScript always
   * treats as true, so no request reaches it and it has no constructor here.
   */
  datatype Rejection = InvalidProjectName | InvalidBase64 | NonexistentProject(name: string)

  datatype Validation = Resolved(session: SessionInfo) | Rejected(reason: Rejection)

  /** The project store, keyed by project name (`findOne({name})`). */
  type Store = map<string, ProjectDoc>

  /** Every document is filed under its own name. */
  ghost predicate StoreByName(store: Store) {
    forall n :: n in store ==> store[n].name == n
  }

  /** What the URL says before the project is decoded. */
  datatype UrlState = UrlState(project: string, version: real, debug: bool)

  /** `+s || 0`: the numeric value, 0 for NaN (and for 0 itself). */
  function VersionOf(rt: Runtime, s: string): (r: real)
    ensures rt.toNumber(s).None? ==> r == 0.0
    ensures NumberLaws(rt) && AllDigits(s) ==> r == DecimalValue(s) as real
  {
    rt.toNumber(s).GetOr(0.0)
  }

  /** The URL is split on `?`; the last piece names the project, the first carries the version from its third character. */
  function ParseUrl(rt: Runtime, url: string): (r: UrlState)
    ensures '?' !in r.project
    ensures EndsWith(url, (if r.debug then "$" else "") + r.project)
    ensures var tail := (if r.debug then "$" else "") + r.project;
      |tail| == |url| || url[|url| - |tail| - 1] == '?'
    ensures !r.debug ==> r.project == "" || r.project[0] != '$'
    ensures var q := IndexOf(url, '?');
      r.version == VersionOf(rt, Substr(if q.Some? then url[..q.value] else url, 2))
  {
    var pieces := Split(url, '?');
    var project := pieces[|pieces| - 1];
    var version := VersionOf(rt, Substr(pieces[0], 2));
    SplitLastIsSuffix(url, '?');
    assert |project| > 0 && project[0] == '$' ==> project == "$" + project[1..];
    if |project| > 0 && project[0] == '$' then UrlState(project[1..], version, true)
    else UrlState(project, version, false)
  }

  /** The session's copy of a stored project: `{id: _id, name, config}`. */
  function Snapshot(doc: ProjectDoc): Project {
    Project(doc.id, doc.name, doc.config)
  }

  /** `validate`, with `freshId` standing for the `uuidv4()` the source draws. */
  function Validate(rt: Runtime, store: Store, freshId: string, url: string): (r: Validation)
    ensures r.Resolved? ==>
      && r.session.id == freshId
      && (exists n :: n in store && rt.atob(ParseUrl(rt, url).project) == Some(n) && r.session.project == Snapshot(store[n]))
    ensures r.Rejected? && r.reason.NonexistentProject? ==> r.reason.name !in store
  {
    var state := ParseUrl(rt, url);
    if state.project == "" then Rejected(InvalidProjectName)
    else
      match rt.atob(state.project)
      case None => Rejected(InvalidBase64)
      case Some(name) =>
        if name in store then
          Resolved(SessionInfo(Snapshot(store[name]), freshId, state.version, state.debug))
        else Rejected(NonexistentProject(name))
  }

  /** The URL a client builds: a two-character marker and a version, `?`, an optional `$`, the base64 project name. */
  function ClientUrl(marker: string, version: string, debug: bool, encoded: string): string {
    marker + version + "?" + (if debug then "$" else "") + encoded
  }

  /** The last `?`-piece of a client URL is its project part, and the first is the marker and version. */
  lemma ClientUrlPieces(marker: string, version: string, debug: bool, encoded: string)
    requires '?' !in marker + version && '?' !in encoded
    ensures Split(ClientUrl(marker, version, debug, encoded), '?')
         == [marker + version, (if debug then "$" else "") + encoded]
  {
    var parts := [marker + version, (if debug then "$" else "") + encoded];
    assert ClientUrl(marker, version, debug, encoded) == Join(parts, '?');
    SplitJoin(parts, '?');
  }

  /** Parsing a client URL recovers the version digits, the debug mark and the encoded name. */
  lemma ParseClientUrl(rt: Runtime, marker: string, version: string, debug: bool, encoded: string)
    requires NumberLaws(rt)
    requires |marker| == 2 && '?' !in marker
    requires AllDigits(version) && '?' !in encoded
    requires encoded == "" || encoded[0] != '$'
    ensures ParseUrl(rt, ClientUrl(marker, version, debug, encoded))
         == UrlState(encoded, DecimalValue(version) as real, debug)
  {
    ClientUrlPieces(marker, version, debug, encoded);
    assert (marker + version)[2..] == version;
    var n := rt.toNumber(version);
    assert n == Some(DecimalValue(version) as real) by {
      if version == "" { assert DecimalValue(version) == 0; }
    }
    var project := (if debug then "$" else "") + encoded;
    assert debug ==> project[0] == '$' && project[1..] == encoded;
  }

  /**
   * Every outcome of validation, both ways: an empty project part is an
   * invalid name, an undecodable one invalid base64, an unknown name a
   * nonexistent project, and a known one a session carrying the parsed
   * version and debug flag and a copy of the stored project.
   */
  lemma ValidateOutcomes(rt: Runtime, store: Store, freshId: string, url: string)
    requires StoreByName(store)
    ensures var st := ParseUrl(rt, url);
      && (Validate(rt, store, freshId, url) == Rejected(InvalidProjectName) <==> st.project == "")
      && (Validate(rt, store, freshId, url) == Rejected(InvalidBase64) <==>
            st.project != "" && rt.atob(st.project).None?)
      && (forall n :: Validate(rt, store, freshId, url) == Rejected(NonexistentProject(n)) <==>
            st.project != "" && rt.atob(st.project) == Some(n) && n !in store)
      && (Validate(rt, store, freshId, url).Resolved? <==>
            st.project != "" && rt.atob(st.project).Some? && rt.atob(st.project).value in store)
      && (Validate(rt, store, freshId, url).Resolved? ==>
            var s := Validate(rt, store, freshId, url).session;
            && s.project.name == rt.atob(st.project).value
            && s.project == Snapshot(store[s.project.name])
            && s.id == freshId && s.version == st.version && s.debug == st.debug)
  {
    var st := ParseUrl(rt, url);
    var v := Validate(rt, store, freshId, url);
    if st.project != "" && rt.atob(st.project).Some? {
      var name := rt.atob(st.project).value;
      assert name in store ==> v == Resolved(SessionInfo(Snapshot(store[name]), freshId, st.version, st.debug));
      assert name !in store ==> v == Rejected(NonexistentProject(name));
    }
  }

  /**
   * A client URL for an existing project resolves a session whose version is
   * the URL's digits, whose debug flag is the `$` mark, and whose project is
   * the stored record; the same URL naming an unknown project is refused.
   */
  lemma ValidateClientUrl(rt: Runtime, store: Store, freshId: string,
                          marker: string, version: string, debug: bool, encoded: string, name: string)
    requires NumberLaws(rt) && StoreByName(store)
    requires |marker| == 2 && '?' !in marker
    requires AllDigits(version) && '?' !in encoded && encoded != "" && encoded[0] != '$'
    requires rt.atob(encoded) == Some(name)
    ensures name in store ==>
      Validate(rt, store, freshId, ClientUrl(marker, version, debug, encoded))
        == Resolved(SessionInfo(Project(store[name].id, name, store[name].config),
                                freshId, DecimalValue(version) as real, debug))
    ensures name !in store ==>
      Validate(rt, store, freshId, ClientUrl(marker, version, debug, encoded))
        == Rejected(NonexistentProject(name))
  {
    ParseClientUrl(rt, marker, version, debug, encoded);
  }

  /** A project part of a lone `$` asks for debug but names nothing, and is refused as an invalid name. */
  lemma LoneDollarIsInvalid(rt: Runtime, store: Store, freshId: string, path: string)
    requires '?' !in path
    ensures Validate(rt, store, freshId, path + "?$") == Rejected(InvalidProjectName)
  {
    SplitJoin([path, "$"], '?');
    assert Join([path, "$"], '?') == path + "?$";
  }
}

// Retained evidence files, timestamps and digests
// (tests/integrations/pg-mdm/derive_v050_qualification.py:163-204, 331-364, 401-408).

module Evidence {
  import opened Basics
  import opened Json

  type Content = seq<nat>

  /** Everything outside the manifest: the evidence files, and library functions left abstract. */
  datatype World = World(
    files: Option<map<string, Content>>,   // None: no manifest directory was given
    allowedPath: string -> bool,           // relative, and without a parent step
    sha256: Content -> string,
    parse: Content -> Option<Json>,
    dumps: Json -> Content,                // of values without NaN and infinities
    instant: string -> Option<int>,        // a timezone-aware timestamp
    blank: string -> bool,                 // empty after strip
    normalName: string -> string,          // whitespace folded, case folded
    supportDocument: string -> bool)       // an existing file under docs/

  /** The reference names a retained file whose digest is the stated one. */
  predicate Verified(w: World, reference: Json) {
    && HasFields(reference, {"path", "sha256"})
    && var (path, digest) := (Get(reference, "path"), Get(reference, "sha256"));
    && path.JString? && path.s != "" && w.allowedPath(path.s)
    && HexString(digest, 64)
    && w.files.Some? && path.s in w.files.value
    && w.sha256(w.files.value[path.s]) == digest.s
  }

  /** None stands for an error; a file holding null gives Some(JNull). */
  function ReadJson(w: World, reference: Json): Option<Json> {
    if Verified(w, reference) then w.parse(w.files.value[Get(reference, "path").s]) else None
  }

  function Time(w: World, j: Json): Option<int> {
    if j.JString? then w.instant(j.s) else None
  }

  /** A string with something besides whitespace. */
  predicate Named(w: World, j: Json) {
    j.JString? && !w.blank(j.s)
  }

  /** The digest of a JSON value; JNull, Python's None, when it cannot be serialized. */
  function JsonSha256(w: World, j: Json): Json {
    if AllFinite(j) then JString(w.sha256(w.dumps(j))) else JNull
  }

  /** An approval is exactly a name, a time and a retained report. */
  predicate ApprovalFormed(w: World, value: Json) {
    && HasFields(value, {"name", "signed_at", "evidence"}) && Named(w, Get(value, "name"))
    && Time(w, Get(value, "signed_at")).Some? && Verified(w, Get(value, "evidence"))
  }
}

/**
 The printed identity of a canonical row, `memory:v1:<length>:<layer>:<id>`, and what is built on
 it. Length-prefixing is what makes it unambiguous; the parser here is the proof.
 */
module CanonicalId {
  import opened Options
  import opened Text

  const DEFAULT_LAYER := "workspace_markdown"
  const PREFIX := "memory:v1:"

  /** An empty layer means the default one. */
  function LayerOf(layer: string): string {
    if layer == "" then DEFAULT_LAYER else layer
  }

  function Numbered(layer: string, memoryId: string): string {
    Decimal(|layer|) + ":" + layer + ":" + memoryId
  }

  /** None stands for the ValueError on an empty memory id. */
  function Print(memoryId: string, layer: string): Option<string> {
    if memoryId == "" then None else Some(PREFIX + Numbered(LayerOf(layer), memoryId))
  }

  // ----- a parser -----

  datatype Parts = Parts(layer: string, memoryId: string)

  predicate IsDigit(c: char) {
    '0' <= c <= '9'
  }

  /** The leading digits of s. */
  function Digits(s: string): (d: string)
    ensures |d| <= |s| && s[..|d|] == d
    ensures forall i :: 0 <= i < |d| ==> '0' <= d[i] <= '9'
    ensures |d| < |s| ==> !IsDigit(s[|d|])
  {
    if s == "" || !IsDigit(s[0]) then "" else [s[0]] + Digits(s[1..])
  }

  /** Reads the length up to the colon, that many characters, a colon, and the rest. */
  function Parse(s: string): Option<Parts> {
    if PREFIX <= s then ParseNumbered(s[|PREFIX|..]) else None
  }

  function ParseNumbered(s: string): Option<Parts> {
    var d := Digits(s);
    var n := DigitsValue(d);
    if d == Decimal(n) && |d| < |s| && s[|d|] == ':' then ParseBody(s[|d| + 1..], n) else None
  }

  function ParseBody(body: string, n: nat): Option<Parts> {
    if n == 0 || |body| < n + 2 || body[n] != ':' then None
    else Some(Parts(body[..n], body[n + 1..]))
  }

  lemma DigitsUpTo(d: string, rest: string)
    requires forall i :: 0 <= i < |d| ==> IsDigit(d[i])
    requires rest != "" && !IsDigit(rest[0])
    ensures Digits(d + rest) == d
  {
    if d == "" {
      assert d + rest == rest;
    } else {
      assert (d + rest)[1..] == d[1..] + rest;
      DigitsUpTo(d[1..], rest);
    }
  }

  /** The body splits where the length says, whatever colons and digits it contains. */
  lemma BodySplits(layer: string, memoryId: string)
    requires layer != "" && memoryId != ""
    ensures ParseBody(layer + ":" + memoryId, |layer|) == Some(Parts(layer, memoryId))
  {
    var body := layer + ":" + memoryId;
    assert body[..|layer|] == layer && body[|layer| + 1..] == memoryId;
  }

  lemma NumberSplits(n: nat, body: string)
    ensures ParseNumbered(Decimal(n) + ":" + body) == ParseBody(body, n)
  {
    var d := Decimal(n);
    var s := d + ":" + body;
    assert s == d + (":" + body);
    DigitsUpTo(d, ":" + body);
    DecimalValue(n);
    assert s[|d| + 1..] == body;
  }

  lemma Regroup(a: string, b: string, c: string)
    ensures a + (b + c) == a + b + c
  {
  }

  /** Parsing recovers both parts, for all strings. */
  lemma ParsePrint(memoryId: string, layer: string)
    requires memoryId != ""
    ensures Parse(Print(memoryId, layer).value) == Some(Parts(LayerOf(layer), memoryId))
  {
    var l := LayerOf(layer);
    DropPrefix(Numbered(l, memoryId));
    NumberedParses(l, memoryId);
  }

  lemma NumberedParses(layer: string, memoryId: string)
    requires layer != "" && memoryId != ""
    ensures ParseNumbered(Numbered(layer, memoryId)) == Some(Parts(layer, memoryId))
  {
    var d, body := Decimal(|layer|) + ":", layer + ":" + memoryId;
    Regroup(d, layer, ":" + memoryId);
    Regroup(layer, ":", memoryId);
    Regroup(d + layer, ":", memoryId);
    assert Numbered(layer, memoryId) == d + body;
    NumberSplits(|layer|, body);
    BodySplits(layer, memoryId);
  }

  lemma DropPrefix(s: string)
    ensures Parse(PREFIX + s) == ParseNumbered(s)
  {
    assert (PREFIX + s)[|PREFIX|..] == s;
  }

  lemma ParsedBody(body: string, n: nat)
    requires ParseBody(body, n).Some?
    ensures var p := ParseBody(body, n).value;
      body == p.layer + ":" + p.memoryId && |p.layer| == n && p.layer != "" && p.memoryId != ""
  {
  }

  lemma ParsedNumber(s: string) returns (n: nat, body: string)
    requires ParseNumbered(s).Some?
    ensures s == Decimal(n) + ":" + body && ParseNumbered(s) == ParseBody(body, n)
  {
    var d := Digits(s);
    n, body := DigitsValue(d), s[|d| + 1..];
    assert s == s[..|d|] + [s[|d|]] + body;
  }

  lemma Reassembled(s: string, n: nat, body: string, p: Parts)
    requires s == Decimal(n) + ":" + body && body == p.layer + ":" + p.memoryId && n == |p.layer|
    ensures s == Numbered(p.layer, p.memoryId)
  {
    var d := Decimal(n) + ":";
    Regroup(d, p.layer, ":" + p.memoryId);
    Regroup(p.layer, ":", p.memoryId);
    Regroup(d + p.layer, ":", p.memoryId);
  }

  lemma NumberedOnly(s: string)
    requires ParseNumbered(s).Some?
    ensures var p := ParseNumbered(s).value; p.layer != "" && p.memoryId != "" && s == Numbered(p.layer, p.memoryId)
  {
    var n, body := ParsedNumber(s);
    ParsedBody(body, n);
    Reassembled(s, n, body, ParseNumbered(s).value);
  }

  /** Nothing else parses: a string is a canonical id exactly if the parser accepts it. */
  lemma PrintParse(s: string)
    requires Parse(s).Some?
    ensures Print(Parse(s).value.memoryId, Parse(s).value.layer) == Some(s)
  {
    var rest := s[|PREFIX|..];
    NumberedOnly(rest);
    assert s == PREFIX + rest;
  }

  /** The strings that parse are those of this format, with a layer and an id that are not empty. */
  lemma ParseIff(s: string, p: Parts)
    ensures Parse(s) == Some(p) <==>
      p.layer != "" && p.memoryId != "" && s == "memory:v1:" + (Decimal(|p.layer|) + ":" + p.layer + ":" + p.memoryId)
  {
    if Parse(s) == Some(p) {
      NumberedOnly(s[|PREFIX|..]);
      PrintParse(s);
    }
    if p.layer != "" && p.memoryId != "" && s == "memory:v1:" + (Decimal(|p.layer|) + ":" + p.layer + ":" + p.memoryId) {
      ParsePrint(p.memoryId, p.layer);
    }
  }

  /** So a printed id tells the row, a missing layer being the default one; only an empty id prints nothing. */
  lemma PrintTells(id: string, layer: string)
    ensures Print(id, layer) == None <==> id == ""
    ensures id != "" ==> Parse(Print(id, layer).value) == Some(Parts(if layer == "" then "workspace_markdown" else layer, id))
  {
    if id != "" {
      ParsePrint(id, layer);
    }
  }

  /** Two rows print alike exactly if they are the same row. */
  lemma PrintInjective(id: string, layer: string, id': string, layer': string)
    requires id != "" && id' != ""
    ensures Print(id, layer) == Print(id', layer') <==> id == id' && LayerOf(layer) == LayerOf(layer')
  {
    ParsePrint(id, layer);
    ParsePrint(id', layer');
  }

  // ----- revisions and projections -----

  datatype Revision = Revision(memoryId: string, layer: string, canonicalId: string, sourceHash: string, sourceRevision: string)

  /** canonical_revision, with the content hash as a parameter. */
  function RevisionOf(sha: string -> string, memoryId: string, content: string, layer: string): Option<Revision> {
    match Print(memoryId, LayerOf(layer))
    case None => None
    case Some(printed) => Some(Revision(memoryId, LayerOf(layer), printed, sha(content), "sha256:" + sha(content)))
  }

  datatype Payload = Payload(adapterName: string, adapterVersion: string, canonicalId: string, projectionType: string)

  function ProjectionId(hash: Payload -> string, r: Revision, kind: string, adapter: string, version: string): string {
    "projection:v1:" + hash(PayloadOf(r, kind, adapter, version))
  }

  ghost predicate NoCollision<T>(hash: T -> string, x: T, y: T) {
    hash(x) == hash(y) ==> x == y
  }

  function PayloadOf(r: Revision, kind: string, adapter: string, version: string): Payload {
    Payload(adapter, version, r.canonicalId, kind)
  }

  /** One projection slot per row, adapter and type: the content of the row does not show in it. */
  lemma ProjectionSlotIff(
      sha: string -> string, hash: Payload -> string,
      id: string, layer: string, content: string, kind: string, adapter: string, version: string,
      id': string, layer': string, content': string, kind': string, adapter': string, version': string)
    requires id != "" && id' != ""
    requires NoCollision(hash,
      PayloadOf(RevisionOf(sha, id, content, layer).value, kind, adapter, version),
      PayloadOf(RevisionOf(sha, id', content', layer').value, kind', adapter', version'))
    ensures
      var a, b := RevisionOf(sha, id, content, layer).value, RevisionOf(sha, id', content', layer').value;
      ProjectionId(hash, a, kind, adapter, version) == ProjectionId(hash, b, kind', adapter', version') <==>
        (id == id' && LayerOf(layer) == LayerOf(layer') && kind == kind' && adapter == adapter' && version == version')
  {
    PrintInjective(id, LayerOf(layer), id', LayerOf(layer'));
    var p := Payload(adapter, version, Print(id, LayerOf(layer)).value, kind);
    var q := Payload(adapter', version', Print(id', LayerOf(layer')).value, kind');
    SameSlot(hash, p, q);
  }

  lemma SameSlot(hash: Payload -> string, p: Payload, q: Payload)
    requires NoCollision(hash, p, q)
    ensures "projection:v1:" + hash(p) == "projection:v1:" + hash(q) <==> p == q
  {
    var tag := "projection:v1:";
    assert (tag + hash(p))[|tag|..] == hash(p) && (tag + hash(q))[|tag|..] == hash(q);
  }

  /** While the revision of a row changes exactly when its content does. */
  lemma RevisionTracksContent(sha: string -> string, id: string, layer: string, content: string, content': string)
    requires NoCollision(sha, content, content') && id != ""
    ensures RevisionOf(sha, id, content, layer) == RevisionOf(sha, id, content', layer) <==> content == content'
  {
  }

  /** What a revision and a projection id are made of. */
  lemma RevisionTells(sha: string -> string, hash: Payload -> string, id: string, layer: string, content: string,
                      kind: string, adapter: string, version: string)
    ensures RevisionOf(sha, id, content, layer) == None <==> id == ""
    ensures id != "" ==>
      var r := RevisionOf(sha, id, content, layer).value;
      && Parse(r.canonicalId) == Some(Parts(r.layer, id)) && r.memoryId == id
      && r.layer == (if layer == "" then "workspace_markdown" else layer)
      && r.sourceHash == sha(content) && r.sourceRevision == "sha256:" + sha(content)
      && ProjectionId(hash, r, kind, adapter, version) == "projection:v1:" + hash(Payload(adapter, version, r.canonicalId, kind))
  {
    PrintTells(id, LayerOf(layer));
  }
}

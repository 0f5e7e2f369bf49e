/** The wire size of a command. */
module Envelope {
  // A command is encoded twice: when it is accepted, under revision 1 or 0, and when it is
  // sent, under the numbers of that moment. Only those numbers can change the verdict.

  import Options
  import opened Text
  import opened Mutations

  const MAX_MESSAGE_BYTES: nat := 8 * 1024 * 1024
  const MAX_SAFE: nat := 0x1f_ffff_ffff_ffff

  /** One root and its epoch: the first. */
  const EPOCH: nat := 1
  const ROOT: Uri := "file:///root"

  // ----- Objects on the wire -----

  /** A member: its plain name, and the bytes of its value. */
  datatype Field = Field(name: string, bytes: nat)

  function Cost(f: Field): nat { |f.name| + 2 + 1 + f.bytes }

  function Sum(fields: seq<Field>, n: nat): nat
    requires n <= |fields|
  {
    if n == 0 then 0 else Sum(fields, n - 1) + Cost(fields[n - 1])
  }

  /** Braces, commas and members. */
  function ObjectBytes(fields: seq<Field>): nat {
    2 + (if fields == [] then 0 else |fields| - 1) + Sum(fields, |fields|)
  }

  /** Stops at the first member that does not fit. */
  method JsonObjectWireBytes(fields: seq<Field>, maxBytes: int) returns (r: Options.Option<nat>)
    ensures r == if ObjectBytes(fields) <= maxBytes then Options.Some(ObjectBytes(fields)) else Options.None
  {
    var bytes := 2 + if fields == [] then 0 else |fields| - 1;
    if bytes > maxBytes { return Options.None; }
    for n := 0 to |fields|
      invariant bytes == 2 + (if fields == [] then 0 else |fields| - 1) + Sum(fields, n) <= maxBytes
    {
      var f := fields[n];
      if f.bytes > maxBytes - bytes - 1 || |f.name| + 2 > maxBytes - bytes - 1 - f.bytes {
        SumGrows(fields, n + 1, |fields|);
        return Options.None;
      }
      bytes := bytes + (|f.name| + 2) + 1 + f.bytes;
    }
    r := Options.Some(bytes);
  }

  lemma {:induction false} SumGrows(fields: seq<Field>, m: nat, n: nat)
    requires m <= n <= |fields|
    ensures Sum(fields, m) <= Sum(fields, n)
  {
    if m < n { SumGrows(fields, m, n - 1); }
  }

  lemma {:induction false} SumConcat(a: seq<Field>, b: seq<Field>, n: nat)
    requires n <= |b|
    ensures Sum(a + b, |a| + n) == Sum(a, |a|) + Sum(b, n)
  {
    if n == 0 {
      SumPrefix(a, b, |a|);
    } else {
      SumConcat(a, b, n - 1);
      assert (a + b)[|a| + n - 1] == b[n - 1];
    }
  }

  lemma {:induction false} SumPrefix(a: seq<Field>, b: seq<Field>, n: nat)
    requires n <= |a|
    ensures Sum(a + b, n) == Sum(a, n)
  {
    if n > 0 {
      SumPrefix(a, b, n - 1);
      assert (a + b)[n - 1] == a[n - 1];
    }
  }

  // ----- Numbers -----

  /** The length of a number in decimal. */
  function Digits(n: nat): (d: nat)
    ensures d >= 1
  {
    if n < 10 then 1 else Digits(n / 10) + 1
  }

  function Power(k: nat): nat { if k == 0 then 1 else 10 * Power(k - 1) }

  lemma {:induction false} DigitsBelow(n: nat, k: nat)
    requires 0 < k && n < Power(k)
    ensures Digits(n) <= k
  {
    if n >= 10 { DigitsBelow(n / 10, k - 1); }
  }

  lemma SafeDigits(n: nat)
    requires n <= MAX_SAFE
    ensures Digits(n) <= 16
  {
    assert Power(4) == 10 * Power(3) == 10_000;
    assert Power(8) == 10 * Power(7) == 100 * Power(6) == 1000 * Power(5) == 100_000_000;
    assert Power(12) == 10 * Power(11) == 100 * Power(10) == 1000 * Power(9) == 1_000_000_000_000;
    assert Power(16) == 10 * Power(15) == 100 * Power(14) == 1000 * Power(13) == 10_000_000_000_000_000;
    DigitsBelow(n, 16);
  }

  // ----- Reads -----

  /** The members a read has on the wire beside those of its input. */
  function Header(id: nat, revision: nat): seq<Field> {
    [Field("protocol", 1), Field("epoch", Digits(EPOCH)), Field("id", Digits(id)),
     Field("requiredRevision", Digits(revision)), Field("cancelCell", 4)]
  }

  /** Its input takes `bytes`; the header adds a comma and a member each. */
  function ReadBytes(bytes: nat, id: nat, revision: nat): nat {
    bytes + 66 + Digits(EPOCH) + Digits(id) + Digits(revision)
  }

  /** Encoding a read, under the numbers it is sent with, does not throw. */
  predicate ReadEncodes(bytes: nat, id: nat, revision: nat) {
    id <= MAX_SAFE && revision <= MAX_SAFE && ReadBytes(bytes, id, revision) <= MAX_MESSAGE_BYTES
  }

  lemma HeaderCosts(id: nat, revision: nat)
    ensures Sum(Header(id, revision), 5) == 61 + Digits(EPOCH) + Digits(id) + Digits(revision)
  {
    var h := Header(id, revision);
    assert Cost(h[0]) == 12 && Cost(h[1]) == 8 + Digits(EPOCH) && Cost(h[2]) == 5 + Digits(id);
    assert Cost(h[3]) == 19 + Digits(revision) && Cost(h[4]) == 17;
    assert Sum(h, 1) == Cost(h[0]) && Sum(h, 2) == Sum(h, 1) + Cost(h[1]) && Sum(h, 3) == Sum(h, 2) + Cost(h[2]);
  }

  /** Wherever the header's members stand among those of the input, the envelope takes
      exactly these bytes. */
  lemma EnvelopeIsReadBytes(head: seq<Field>, cell: seq<Field>, front: seq<Field>, back: seq<Field>,
                            id: nat, revision: nat)
    requires head + cell == Header(id, revision) && front + back != []
    ensures ObjectBytes(head + front + cell + back) == ReadBytes(ObjectBytes(front + back), id, revision)
  {
    SumConcat(head, front, |front|);
    SumConcat(head + front, cell, |cell|);
    SumConcat(head + front + cell, back, |back|);
    SumConcat(front, back, |back|);
    SumConcat(head, cell, |cell|);
    assert |head + cell| == 5;
    HeaderCosts(id, revision);
  }

  /** A read the queue admits encodes under every number it may be sent with, up to the last
      safe integer. */
  lemma AdmittedReadEncodes(bytes: nat, id: nat, revision: nat)
    requires bytes <= MAX_TEXT_BYTES && revision <= MAX_SAFE
    ensures ReadEncodes(bytes, id, revision) <==> id <= MAX_SAFE
  {
    SafeDigits(revision);
    if id <= MAX_SAFE { SafeDigits(id); }
    assert Digits(EPOCH) == 1;
  }

  // ----- Edits -----

  function Quoted(s: string): nat { |s| + 2 }

  function Flag(b: bool): nat { if b then 4 else 5 }

  function KindName(k: FileKind): string {
    match k
    case Created => "created"
    case Changed => "changed"
    case Deleted => "deleted"
  }

  function ChangeFields(c: FileChange): seq<Field> {
    [Field("uri", Quoted(c.uri)), Field("kind", Quoted(KindName(c.kind)))]
  }

  function ChangesBytes(changes: seq<FileChange>, n: nat): nat
    requires n <= |changes|
  {
    if n == 0 then 2 + (if changes == [] then 0 else |changes| - 1)
    else ChangesBytes(changes, n - 1) + ObjectBytes(ChangeFields(changes[n - 1]))
  }

  /** The members of an edit but for its revision. */
  function Body(m: Mutation): seq<Field> {
    match m
    case Open(uri, version, text) => Versioned("open", uri, version) + [Field("text", WireBytes(text))]
    case Change(uri, version, text) => Versioned("change", uri, version) + [Field("text", WireBytes(text))]
    case Close(uri, version) => Versioned("close", uri, version)
    case Workspace(b) =>
      [Field("kind", Quoted("workspaceFilesChanged")), Field("rootUri", Quoted(ROOT)),
       Field("rootDirty", Flag(b.rootDirty))]
      + (if b.configurationChanged then [Field("configurationChanged", Flag(true))] else [])
      + [Field("resourceDirty", Flag(b.resourceDirty)), Field("resourceChanged", Flag(b.resourceChanged)),
         Field("changes", ChangesBytes(b.changes, |b.changes|))]
  }

  function Versioned(kind: string, uri: Uri, version: nat): seq<Field> {
    [Field("kind", Quoted(kind)), Field("uri", Quoted(uri)), Field("documentVersion", Digits(version))]
  }

  function Prologue(revision: nat): seq<Field> {
    [Field("protocol", 1), Field("epoch", Digits(EPOCH)), Field("revision", Digits(revision))]
  }

  function EditBytes(m: Mutation, revision: nat): nat { ObjectBytes(Prologue(revision) + Body(m)) }

  /** Encoding an edit, under the revision it is sent with, does not throw. */
  predicate EditEncodes(m: Mutation, revision: nat) {
    revision <= MAX_SAFE && EditBytes(m, revision) <= MAX_MESSAGE_BYTES
  }

  lemma RevisionCosts(m: Mutation, r: nat)
    ensures EditBytes(m, r) == EditBytes(m, 1) - 1 + Digits(r)
  {
    var body := Body(m);
    SumConcat(Prologue(r), body, |body|);
    SumConcat(Prologue(1), body, |body|);
    PrologueCosts(r);
    PrologueCosts(1);
  }

  lemma PrologueCosts(r: nat)
    ensures Sum(Prologue(r), 3) == 31 + Digits(EPOCH) + Digits(r)
  {
    var p := Prologue(r);
    assert Cost(p[0]) == 12 && Cost(p[1]) == 8 + Digits(EPOCH) && Cost(p[2]) == 11 + Digits(r);
    assert Sum(p, 1) == Cost(p[0]) && Sum(p, 2) == Sum(p, 1) + Cost(p[1]);
  }

  /** An accepted edit, encoded under revision 1, still encodes when it is sent exactly when
      the digits of its revision fit in what the envelope has left. */
  lemma AcceptedEditEncodes(m: Mutation, revision: nat)
    requires EditEncodes(m, 1)
    ensures EditEncodes(m, revision) <==>
      revision <= MAX_SAFE && Digits(revision) - 1 <= MAX_MESSAGE_BYTES - EditBytes(m, 1)
  {
    RevisionCosts(m, revision);
  }
}

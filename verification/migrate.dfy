/**
  The one-off migration that rewrites message documents whose `ciphertext`,
  `iv` or `tag` was stored as binary (a Buffer, a serialised `{data: [...]}`
  Buffer, or a plain array of numbers) as Base64 text, counting the documents
  it updates and those it skips.
*/
module Migrate {
  import opened Wrappers
  import opened JsText
  import opened Base64

  /** A stored field value as the script can meet it. */
  datatype Raw =
    | Null                           // null or undefined
    | Str(s: string)
    | Buf(bytes: seq<byte>)          // a Buffer
    | DataObj(data: seq<int>)        // an object whose `data` is an array
    | Arr(items: seq<int>)           // an array
    | Other(text: string)            // anything else, with its `String(val)`

  /** What `Buffer.from(array)` keeps of a number: its low eight bits. */
  function Bytes(items: seq<int>): (b: seq<byte>)
    ensures |b| == |items| && forall i :: 0 <= i < |items| ==> b[i] == items[i] % 256
  {
    seq(|items|, i requires 0 <= i < |items| => items[i] % 256)
  }

  /**
    `toBase64String`: missing values become the empty text, strings are kept,
    binary values become Base64 text that decodes back to their bytes, and
    anything else becomes its `String(val)`.
  */
  function ToBase64String(v: Raw): (s: string)
    ensures v.Null? ==> s == ""
    ensures v.Str? ==> s == v.s
    ensures v.Buf? ==> Decode(s) == Some(v.bytes)
    ensures v.DataObj? ==> Decode(s) == Some(Bytes(v.data))
    ensures v.Arr? ==> Decode(s) == Some(Bytes(v.items))
    ensures v.Other? ==> s == v.text
  {
    match v
    case Null => ""
    case Str(s) => s
    case Buf(b) => DecodeEncode(b); Encode(b)
    case DataObj(data) => DecodeEncode(Bytes(data)); Encode(Bytes(data))
    case Arr(items) => DecodeEncode(Bytes(items)); Encode(Bytes(items))
    case Other(text) => text
  }

  /** Converting a converted value again changes nothing. */
  lemma ToBase64StringIdempotent(v: Raw)
    ensures ToBase64String(Str(ToBase64String(v))) == ToBase64String(v)
  {
  }

  /** A message document, reduced to the fields the script reads. */
  datatype Doc = Doc(id: string, ciphertext: Raw, iv: Raw, tag: Raw)

  /** A field to rewrite: present and not a string. */
  predicate NeedsFix(v: Raw) {
    !v.Null? && !v.Str?
  }

  predicate NeedsUpdate(m: Doc) {
    NeedsFix(m.ciphertext) || NeedsFix(m.iv) || NeedsFix(m.tag)
  }

  /** The `$set` of one document: a new text for each field that needs one. */
  datatype Updates = Updates(ciphertext: Option<string>, iv: Option<string>, tag: Option<string>)

  function FieldUpdate(v: Raw): (u: Option<string>)
    ensures u.Some? <==> NeedsFix(v)
  {
    if NeedsFix(v) then Some(ToBase64String(v)) else None
  }

  function UpdatesOf(m: Doc): (u: Updates)
    ensures NeedsUpdate(m) <==> u.ciphertext.Some? || u.iv.Some? || u.tag.Some?
  {
    Updates(FieldUpdate(m.ciphertext), FieldUpdate(m.iv), FieldUpdate(m.tag))
  }

  function SetField(v: Raw, u: Option<string>): Raw {
    if u.Some? then Str(u.value) else v
  }

  /** The document after `updateOne(…, { $set: updates })`. */
  function Apply(m: Doc, u: Updates): Doc {
    Doc(m.id, SetField(m.ciphertext, u.ciphertext), SetField(m.iv, u.iv), SetField(m.tag, u.tag))
  }

  /** A document as one pass leaves it. */
  function Migrated(m: Doc): Doc {
    if NeedsUpdate(m) then Apply(m, UpdatesOf(m)) else m
  }

  /**
    One pass rewrites exactly the binary fields: string and missing fields are
    kept, every rewritten field is the Base64 text of the old value, and the
    result needs no further update.
  */
  lemma MigratedFields(m: Doc)
    ensures var r := Migrated(m);
      r.id == m.id &&
      (r.ciphertext == if NeedsFix(m.ciphertext) then Str(ToBase64String(m.ciphertext)) else m.ciphertext) &&
      (r.iv == if NeedsFix(m.iv) then Str(ToBase64String(m.iv)) else m.iv) &&
      (r.tag == if NeedsFix(m.tag) then Str(ToBase64String(m.tag)) else m.tag) &&
      !NeedsUpdate(r)
  {
  }

  function MigrateAll(ms: seq<Doc>): (r: seq<Doc>)
    ensures |r| == |ms| && forall i :: 0 <= i < |ms| ==> r[i] == Migrated(ms[i])
  {
    seq(|ms|, i requires 0 <= i < |ms| => Migrated(ms[i]))
  }

  /** How many documents a pass updates. */
  function CountNeeding(ms: seq<Doc>): (n: nat)
    ensures n <= |ms|
  {
    if |ms| == 0 then 0
    else CountNeeding(ms[..|ms| - 1]) + (if NeedsUpdate(ms[|ms| - 1]) then 1 else 0)
  }

  lemma {:induction false} NoneNeeding(ms: seq<Doc>)
    requires forall i :: 0 <= i < |ms| ==> !NeedsUpdate(ms[i])
    ensures CountNeeding(ms) == 0
    decreases |ms|
  {
    if |ms| > 0 {
      NoneNeeding(ms[..|ms| - 1]);
    }
  }

  /** The migration is idempotent: a second pass over its output updates nothing and skips everything. */
  lemma SecondPassSkipsAll(ms: seq<Doc>)
    ensures CountNeeding(MigrateAll(ms)) == 0
    ensures MigrateAll(MigrateAll(ms)) == MigrateAll(ms)
  {
    var once := MigrateAll(ms);
    forall i | 0 <= i < |once|
      ensures !NeedsUpdate(once[i])
    {
      MigratedFields(ms[i]);
    }
    NoneNeeding(once);
  }

  /** One more iteration of the migration loop, in terms of the pass over the prefix. */
  lemma MigrateStep(messages: seq<Doc>, i: nat)
    requires i < |messages|
    ensures MigrateAll(messages[..i + 1]) + messages[i + 1..] ==
      (MigrateAll(messages[..i]) + messages[i..])[i := Migrated(messages[i])]
    ensures CountNeeding(messages[..i + 1]) == CountNeeding(messages[..i]) + (if NeedsUpdate(messages[i]) then 1 else 0)
    ensures !NeedsUpdate(messages[i]) ==> Migrated(messages[i]) == messages[i]
    ensures NeedsUpdate(messages[i]) ==> Migrated(messages[i]) == Apply(messages[i], UpdatesOf(messages[i]))
  {
    assert messages[..i + 1][..i] == messages[..i];
  }

  /** The `messages` collection. */
  class Collection {
    var docs: seq<Doc>

    constructor(docs: seq<Doc>)
      ensures this.docs == docs
    {
      this.docs := docs;
    }

    /**
      `migrate`: every document is either updated, with only its binary fields
      rewritten, or skipped. The counters add up to the number of documents.
    */
    method Migrate() returns (updated: nat, skipped: nat)
      modifies this
      ensures docs == MigrateAll(old(docs))
      ensures updated == CountNeeding(old(docs)) && updated + skipped == |old(docs)|
    {
      var messages := docs;
      updated, skipped := 0, 0;
      var i := 0;
      while i < |messages|
        invariant 0 <= i <= |messages|
        invariant docs == MigrateAll(messages[..i]) + messages[i..]
        invariant updated == CountNeeding(messages[..i]) && updated + skipped == i
      {
        var msg := messages[i];
        MigrateStep(messages, i);
        if !NeedsUpdate(msg) {
          skipped := skipped + 1;
        } else {
          var updates := UpdatesOf(msg);
          docs := docs[i := Apply(msg, updates)];
          updated := updated + 1;
        }
        i := i + 1;
      }
      assert messages[..i] == messages;
    }
  }
}

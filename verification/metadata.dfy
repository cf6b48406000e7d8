/**
 The metadata document written next to the downloaded image: a fixed
 projection of the occurrence record plus a derived download citation.
 */
module Metadata {
  import opened Values

  /** One key of the document with its value, in the order the document
      lists them (which is the order of the JSON object written out). */
  datatype Entry = Entry(key: string, value: Value)

  type Document = seq<Entry>

  /** The document's keys, in order: eighteen fields copied from the record
      and the derived `citation`. */
  const DocumentKeys: seq<string> := [
    "gbifID", "scientificName", "species", "decimalLatitude", "decimalLongitude",
    "country", "locality", "eventDate", "recordedBy", "institutionCode",
    "collectionCode", "catalogNumber", "basisOfRecord", "license", "publisher",
    "media", "citation", "datasetKey", "publishingOrgKey"
  ]

  const CitationKey: string := "citation"

  const CitationPrefix: string := "GBIF Occurrence Download https://doi.org/10.15468/dl."

  /** The record's identifier as the script writes it into text:
      `f"{record.get('gbifID', 'unknown')}"`. */
  function RecordId(r: Record): string
  {
    Render(GetOr(r, "gbifID", Str("unknown")))
  }

  function Citation(r: Record): string
  {
    CitationPrefix + RecordId(r)
  }

  /** The value a copied field takes when the record lacks it. */
  function Absent(key: string): Value
  {
    if key == "media" then Arr([]) else Null
  }

  function Keys(doc: Document): (keys: seq<string>)
    ensures |keys| == |doc|
    ensures forall i :: 0 <= i < |doc| ==> keys[i] == doc[i].key
  {
    seq(|doc|, i requires 0 <= i < |doc| => doc[i].key)
  }

  /** `doc[key]` for the written JSON object: the value of the first entry
      with that key, if any. */
  function Lookup(doc: Document, key: string): Option<Value>
    decreases |doc|
  {
    if |doc| == 0 then None
    else if doc[0].key == key then Some(doc[0].value)
    else Lookup(doc[1..], key)
  }

  predicate Distinct(keys: seq<string>)
  {
    forall i, j :: 0 <= i < j < |keys| ==> keys[i] != keys[j]
  }

  /** The metadata dict built by `save_metadata`. Its keys are the same
      nineteen keys in the same order for every record; each copied field is
      the record's value when present and its default (null, or an empty list
      for `media`) when absent; the citation is the fixed DOI prefix followed
      by the record's identifier. */
  function Project(r: Record): (doc: Document)
    ensures Keys(doc) == DocumentKeys
    ensures forall i :: 0 <= i < |doc| && doc[i].key != CitationKey ==>
      doc[i].value == if doc[i].key in r then r[doc[i].key] else Absent(doc[i].key)
    ensures forall i :: 0 <= i < |doc| && doc[i].key == CitationKey ==>
      doc[i].value == Str(Citation(r))
  {
    [
      Entry("gbifID", GetOr(r, "gbifID", Null)),
      Entry("scientificName", GetOr(r, "scientificName", Null)),
      Entry("species", GetOr(r, "species", Null)),
      Entry("decimalLatitude", GetOr(r, "decimalLatitude", Null)),
      Entry("decimalLongitude", GetOr(r, "decimalLongitude", Null)),
      Entry("country", GetOr(r, "country", Null)),
      Entry("locality", GetOr(r, "locality", Null)),
      Entry("eventDate", GetOr(r, "eventDate", Null)),
      Entry("recordedBy", GetOr(r, "recordedBy", Null)),
      Entry("institutionCode", GetOr(r, "institutionCode", Null)),
      Entry("collectionCode", GetOr(r, "collectionCode", Null)),
      Entry("catalogNumber", GetOr(r, "catalogNumber", Null)),
      Entry("basisOfRecord", GetOr(r, "basisOfRecord", Null)),
      Entry("license", GetOr(r, "license", Null)),
      Entry("publisher", GetOr(r, "publisher", Null)),
      Entry("media", GetOr(r, "media", Arr([]))),
      Entry("citation", Str(Citation(r))),
      Entry("datasetKey", GetOr(r, "datasetKey", Null)),
      Entry("publishingOrgKey", GetOr(r, "publishingOrgKey", Null))
    ]
  }

  /** Tells the nineteen keys apart by their length and first letter. */
  function KeyPosition(key: string): int
  {
    if |key| == 0 then -1
    else if |key| == 6 && key[0] == 'g' then 0
    else if |key| == 14 && key[0] == 's' then 1
    else if |key| == 7 && key[0] == 's' then 2
    else if |key| == 15 && key[0] == 'd' then 3
    else if |key| == 16 && key[0] == 'd' then 4
    else if |key| == 7 && key[0] == 'c' then 5
    else if |key| == 8 && key[0] == 'l' then 6
    else if |key| == 9 && key[0] == 'e' then 7
    else if |key| == 10 && key[0] == 'r' then 8
    else if |key| == 15 && key[0] == 'i' then 9
    else if |key| == 14 && key[0] == 'c' then 10
    else if |key| == 13 && key[0] == 'c' then 11
    else if |key| == 13 && key[0] == 'b' then 12
    else if |key| == 7 && key[0] == 'l' then 13
    else if |key| == 9 && key[0] == 'p' then 14
    else if |key| == 5 && key[0] == 'm' then 15
    else if |key| == 8 && key[0] == 'c' then 16
    else if |key| == 10 && key[0] == 'd' then 17
    else if |key| == 16 && key[0] == 'p' then 18
    else -1
  }

  /** The nineteen keys are pairwise different, so the document is a
      well-formed JSON object with exactly nineteen members. */
  lemma DocumentKeysDistinct()
    ensures Distinct(DocumentKeys)
    ensures |DocumentKeys| == 19
  {
    forall i | 0 <= i < |DocumentKeys|
      ensures KeyPosition(DocumentKeys[i]) == i
    {
    }
  }

  /** In a document with distinct keys, looking a key up finds the entry
      that carries it, and nothing for a key no entry carries. */
  lemma {:induction false} LookupFinds(doc: Document, i: nat)
    requires Distinct(Keys(doc))
    requires i < |doc|
    ensures Lookup(doc, doc[i].key) == Some(doc[i].value)
    decreases i
  {
    if i > 0 {
      assert Keys(doc)[0] != Keys(doc)[i];
      assert Keys(doc[1..]) == Keys(doc)[1..];
      LookupFinds(doc[1..], i - 1);
    }
  }

  lemma {:induction false} LookupMisses(doc: Document, key: string)
    requires key !in Keys(doc)
    ensures Lookup(doc, key) == None
    decreases |doc|
  {
    if |doc| > 0 {
      assert Keys(doc)[0] == doc[0].key;
      assert Keys(doc[1..]) == Keys(doc)[1..];
      LookupMisses(doc[1..], key);
    }
  }

  /** Read back as a JSON object, the document answers every one of its
      nineteen keys, the copied ones with the record's value or the default,
      `citation` with the citation string, and no other key at all: record
      fields outside the list are dropped. */
  lemma ProjectLookup(r: Record, key: string)
    ensures key == CitationKey ==> Lookup(Project(r), key) == Some(Str(Citation(r)))
    ensures key != CitationKey && key in DocumentKeys ==>
      Lookup(Project(r), key) == Some(if key in r then r[key] else Absent(key))
    ensures key !in DocumentKeys ==> Lookup(Project(r), key) == None
  {
    var doc := Project(r);
    DocumentKeysDistinct();
    if key in DocumentKeys {
      var i :| 0 <= i < |DocumentKeys| && DocumentKeys[i] == key;
      LookupFinds(doc, i);
    } else {
      LookupMisses(doc, key);
    }
  }

  /** The entry at a given position is what looking up its key finds. */
  lemma ProjectLookupAt(r: Record, i: nat)
    requires i < |DocumentKeys|
    ensures Lookup(Project(r), DocumentKeys[i]) == Some(Project(r)[i].value)
  {
    DocumentKeysDistinct();
    LookupFinds(Project(r), i);
  }

  /** Only the listed fields of the record matter: two records that agree
      on every listed key, present or absent, give the same document. */
  lemma ProjectIgnoresOtherFields(r1: Record, r2: Record)
    requires forall i :: 0 <= i < |DocumentKeys| ==> (DocumentKeys[i] in r1 <==> DocumentKeys[i] in r2)
    requires forall i :: 0 <= i < |DocumentKeys| && DocumentKeys[i] in r1 ==> r1[DocumentKeys[i]] == r2[DocumentKeys[i]]
    ensures Project(r1) == Project(r2)
  {
    var d1, d2 := Project(r1), Project(r2);
    assert Citation(r1) == Citation(r2) by {
      assert DocumentKeys[0] == "gbifID";
    }
    forall i | 0 <= i < |d1|
      ensures d1[i] == d2[i]
    {
      assert d1[i].key == DocumentKeys[i] == d2[i].key;
    }
  }

  /** The citation names the record's `gbifID` when the record has one and
      the literal `unknown` when it does not. */
  lemma CitationNamesRecord(r: Record)
    ensures "gbifID" in r ==> Citation(r) == CitationPrefix + Render(r["gbifID"])
    ensures "gbifID" !in r ==> Citation(r) == CitationPrefix + "unknown"
  {
  }

  /** The download citation is the fixed DOI prefix followed by the
      record's identifier and nothing else. */
  lemma CitationParts(r: Record)
    ensures |Citation(r)| >= |CitationPrefix|
    ensures Citation(r)[..|CitationPrefix|] == CitationPrefix
    ensures Citation(r)[|CitationPrefix|..] == RecordId(r)
  {
  }

  /** Two records get the same citation exactly when their identifiers are
      written the same way: the citation names the record and nothing else. */
  lemma CitationIdentifiesRecord(r1: Record, r2: Record)
    ensures Citation(r1) == Citation(r2) <==> RecordId(r1) == RecordId(r2)
  {
    CitationParts(r1);
    CitationParts(r2);
  }
}

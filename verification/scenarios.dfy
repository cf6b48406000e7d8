/**
 Concrete runs of the model: the end-to-end example of one record with one
 image, the citation examples, and the quirks of the extension and path rules
 on particular inputs.
 */
module Scenarios {
  import opened Values
  import opened Strings
  import opened Paths
  import opened Extension
  import opened Metadata
  import opened Planner

  lemma DemoDirectories()
    ensures DemoConfig() == Config("gbif_dataset/demo/images", "gbif_dataset/demo/metadata")
  {
  }

  lemma Renders42()
    ensures Render(Int(42)) == "42"
  {
    assert NatToDecimal(4) == "4";
  }

  lemma Renders12345()
    ensures Render(Int(12345)) == "12345"
  {
    assert DigitChar(1) == '1' && DigitChar(2) == '2' && DigitChar(3) == '3';
    assert DigitChar(4) == '4' && DigitChar(5) == '5';
    assert NatToDecimal(12) == NatToDecimal(1) + ['2'] == "12";
    assert NatToDecimal(123) == NatToDecimal(12) + ['3'] == "123";
    assert NatToDecimal(1234) == NatToDecimal(123) + ['4'] == "1234";
    assert NatToDecimal(12345) == NatToDecimal(1234) + ['5'] == "12345";
  }

  lemma CitationTexts()
    ensures CitationPrefix + "42" == "GBIF Occurrence Download https://doi.org/10.15468/dl.42"
    ensures CitationPrefix + "12345" == "GBIF Occurrence Download https://doi.org/10.15468/dl.12345"
    ensures CitationPrefix + "unknown" == "GBIF Occurrence Download https://doi.org/10.15468/dl.unknown"
    ensures CitationPrefix + "None" == "GBIF Occurrence Download https://doi.org/10.15468/dl.None"
  {
  }

  lemma PathTexts()
    ensures "42" + "." + "jpg" == "42.jpg"
    ensures "42" + ".json" == "42.json"
    ensures "gbif_dataset/demo/images" + "/" + "42.jpg" == "gbif_dataset/demo/images/42.jpg"
    ensures "gbif_dataset/demo/metadata" + "/" + "42.json" == "gbif_dataset/demo/metadata/42.json"
    ensures "None" + ".json" == "None.json"
    ensures "gbif_dataset/demo/metadata" + "/" + "None.json" == "gbif_dataset/demo/metadata/None.json"
  {
  }

  /** One record with `gbifID` 42 and one media entry pointing at a `.jpg`. */
  const DemoUrl: string := "https://img.example/42.jpg"

  const DemoRecord: Record := map["gbifID" := Int(42), "media" := Arr([Obj(map["identifier" := Str(DemoUrl)])])]

  lemma DemoRecordShape()
    ensures HasImageUrl([DemoRecord]) && FirstImageUrl([DemoRecord]) == DemoUrl
    ensures RecordId(DemoRecord) == "42"
  {
    var entry := map["identifier" := Str(DemoUrl)];
    assert "media" in DemoRecord && DemoRecord["media"] == Arr([Obj(entry)]);
    assert "identifier" in entry && entry["identifier"] == Str(DemoUrl);
    assert "gbifID" in DemoRecord && DemoRecord["gbifID"] == Int(42);
    Renders42();
  }

  lemma DemoExtension()
    ensures ImageExtension(DemoUrl) == "jpg"
  {
    assert DemoUrl == "https://img.example/42" + "." + "jpg";
    ExtensionAtEnd("https://img.example/42", "jpg");
  }

  lemma DemoPaths()
    ensures Join(DemoConfig().imageDir, "42" + "." + "jpg") == "gbif_dataset/demo/images/42.jpg"
    ensures Join(DemoConfig().jsonDir, "42" + ".json") == "gbif_dataset/demo/metadata/42.json"
  {
    DemoDirectories();
    PathTexts();
    JoinRelative("gbif_dataset/demo/images", "42.jpg");
    JoinRelative("gbif_dataset/demo/metadata", "42.json");
  }

  /** The demo record runs: the image at its URL goes to `images/42.jpg`,
      then the metadata to `metadata/42.json`. */
  lemma DemoRecordRuns()
    ensures var o := PlanRun(DemoConfig(), [DemoRecord]);
      && o.Run?
      && o.plan.imageUrl == DemoUrl
      && o.plan.imagePath == "gbif_dataset/demo/images/42.jpg"
      && o.plan.jsonPath == "gbif_dataset/demo/metadata/42.json"
      && Effects(o) == [DownloadImage(DemoUrl, o.plan.imagePath), WriteMetadata(o.plan.jsonPath, o.plan.metadata)]
  {
    DemoRecordShape();
    DemoExtension();
    DemoPaths();
    RunPlanIs(DemoConfig(), [DemoRecord]);
  }

  /** The demo record's metadata carries its id and a citation ending in
      `dl.42`. */
  lemma DemoRecordMetadata()
    ensures Lookup(Project(DemoRecord), "gbifID") == Some(Int(42))
    ensures Lookup(Project(DemoRecord), CitationKey) == Some(Str("GBIF Occurrence Download https://doi.org/10.15468/dl.42"))
  {
    assert "gbifID" in DemoRecord && DemoRecord["gbifID"] == Int(42);
    assert Lookup(Project(DemoRecord), CitationKey) == Some(Str(CitationPrefix + "42")) by {
      ProjectLookup(DemoRecord, CitationKey);
      Renders42();
    }
    assert Lookup(Project(DemoRecord), "gbifID") == Some(Int(42)) by {
      ProjectLookup(DemoRecord, "gbifID");
      assert DocumentKeys[0] == "gbifID";
    }
    CitationTexts();
  }

  /** A record without `country`: the document holds a null country. */
  lemma MissingCountryIsNull(record: Record)
    requires "country" !in record
    ensures Lookup(Project(record), "country") == Some(Null)
  {
    ProjectLookupAt(record, 5);
    assert DocumentKeys[5] == "country";
  }

  /** A record with id 12345: the citation is for download 12345. */
  lemma CitationFor12345(record: Record)
    requires "gbifID" in record && record["gbifID"] == Int(12345)
    ensures Lookup(Project(record), CitationKey) == Some(Str("GBIF Occurrence Download https://doi.org/10.15468/dl.12345"))
  {
    assert Lookup(Project(record), CitationKey) == Some(Str(CitationPrefix + "12345")) by {
      ProjectLookupAt(record, 16);
      assert DocumentKeys[16] == CitationKey;
      Renders12345();
    }
    CitationTexts();
  }

  /** A record without any id still gets a citation, for `dl.unknown`, and
      its files are named `unknown`. */
  lemma MissingIdIsUnknown(record: Record)
    requires "gbifID" !in record
    ensures Citation(record) == "GBIF Occurrence Download https://doi.org/10.15468/dl.unknown"
    ensures RecordId(record) == "unknown"
  {
    CitationTexts();
  }

  /** An id that is present but null renders as Python's `None`, in the
      citation and in the file names alike. */
  lemma NullIdIsNone(record: Record)
    requires "gbifID" in record && record["gbifID"] == Null
    ensures Citation(record) == "GBIF Occurrence Download https://doi.org/10.15468/dl.None"
    ensures PlanRun(DemoConfig(), [record]).Run? ==>
      PlanRun(DemoConfig(), [record]).plan.jsonPath == "gbif_dataset/demo/metadata/None.json"
  {
    assert RecordId(record) == "None";
    CitationTexts();
    if PlanRun(DemoConfig(), [record]).Run? {
      FilesNamedAfterRecord(DemoConfig(), [record]);
      DemoDirectories();
      PathTexts();
      JoinRelative("gbif_dataset/demo/metadata", "None.json");
    }
  }

  /** A string id starting with `/` is taken as an absolute path by the
      path join, and the metadata file is written outside its directory. */
  lemma AbsoluteIdLeavesDirectory(record: Record, rest: string)
    requires "gbifID" in record && record["gbifID"] == Str("/" + rest)
    requires PlanRun(DemoConfig(), [record]).Run?
    ensures PlanRun(DemoConfig(), [record]).plan.jsonPath == "/" + rest + ".json"
  {
    FilesNamedAfterRecord(DemoConfig(), [record]);
    assert ("/" + rest + ".json")[0] == '/';
  }

  /** An extension in the query position is found: `.png?size=large`. */
  lemma PngBeforeQuery()
    ensures ImageExtension("https://img.example/image123.png?size=large") == "png"
  {
    assert "https://img.example/image123.png?size=large"
      == "https://img.example/image123" + "." + "png" + "?" + "size=large";
    ExtensionBeforeQuery("https://img.example/image123", "png", "size=large");
  }

  /** Matching is case-sensitive: an upper-case `PNG` falls back to `jpg`. */
  lemma UppercaseFallsBack()
    ensures RawExtension("https://img.example/image123.PNG?size=large") == "PNG"
    ensures ImageExtension("https://img.example/image123.PNG?size=large") == "jpg"
  {
    assert "https://img.example/image123.PNG?size=large"
      == "https://img.example/image123" + "." + "PNG" + "?" + "size=large";
    ExtensionBeforeQuery("https://img.example/image123", "PNG", "size=large");
    assert "PNG" !in Allowed;
  }

  /** A dot in the query string defeats detection: `a.png?v=1.2` yields the
      candidate `2` and so the fallback `jpg`. */
  lemma DotInQueryFallsBack()
    ensures RawExtension("a.png?v=1.2") == "2"
    ensures ImageExtension("a.png?v=1.2") == "jpg"
  {
    assert "a.png?v=1.2" == "a" + "." + "png" + "?" + "v=1" + "." + "2";
    DotInQueryWins("a", "png", "v=1", "2");
  }
}

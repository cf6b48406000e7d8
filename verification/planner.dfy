/**
 The decisions `main` takes between the query and the two writes, as one pure
 function from the returned records to an outcome: stop early, fail inside the
 `try` block, or run a plan of one image download followed by one metadata
 write.
 */
module Planner {
  import opened Values
  import opened Paths
  import opened Extension
  import opened Metadata

  /** The two output directories. */
  datatype Config = Config(imageDir: string, jsonDir: string)

  const DemoDir: string := "gbif_dataset/demo"

  /** The directories the script writes to. */
  function DemoConfig(): Config
  {
    Config(Join(DemoDir, "images"), Join(DemoDir, "metadata"))
  }

  /** The early returns of `main`: not errors, just nothing to do. */
  datatype StopReason = NoRecords | NoMedia | NoImageUrl

  /** The exception a malformed record raises inside the `try` block; the
      top-level handler reports each of them the same way. */
  datatype Fault = KeyError | TypeError | AttributeError

  datatype Plan = Plan(imageUrl: string, imagePath: string, jsonPath: string, metadata: Document)

  datatype Outcome = Stop(reason: StopReason) | Failed(fault: Fault) | Run(plan: Plan)

  /** The side effects a run performs, in the order it performs them. */
  datatype Effect = DownloadImage(url: string, path: string) | WriteMetadata(path: string, doc: Document)

  /** What `media[0].get('identifier')` evaluates to, or raises. */
  datatype Fetched = Got(v: Value) | Raised(fault: Fault)

  /** `media[0].get('identifier')` for a media value that passed `if not media`:
      a list gives its first element, which must be a dict; indexing a dict
      with 0 raises `KeyError`; the first character of a string has no `get`;
      numbers and booleans cannot be indexed. */
  function FirstIdentifier(media: Value): Fetched
    requires Truthy(media)
  {
    match media
    case Arr(items) =>
      (match items[0]
       case Obj(fields) => Got(GetOr(fields, "identifier", Null))
       case _ => Raised(AttributeError))
    case Obj(_) => Raised(KeyError)
    case Str(_) => Raised(AttributeError)
    case _ => Raised(TypeError)
  }

  /** Which media values yield an identifier and which raise what. */
  lemma FirstIdentifierFaults(media: Value)
    requires Truthy(media)
    ensures FirstIdentifier(media).Got? <==> media.Arr? && media.items[0].Obj?
    ensures FirstIdentifier(media) == Raised(KeyError) <==> media.Obj?
    ensures FirstIdentifier(media) == Raised(TypeError) <==> media.Bool? || media.Int? || media.Float?
    ensures FirstIdentifier(media) == Raised(AttributeError) <==>
      media.Str? || (media.Arr? && !media.items[0].Obj?)
  {
  }

  /** `main` from the records the query returned up to the two writes. Only
      the first record and its first media entry are consulted. */
  function PlanRun(cfg: Config, records: seq<Record>): (o: Outcome)
    ensures o.Run? ==> |records| > 0 && o.plan.metadata == Project(records[0])
    ensures o.Run? ==> o.plan.imageUrl != ""
  {
    if |records| == 0 then Stop(NoRecords)
    else
      var first := records[0];
      var id := RecordId(first);
      var media := GetOr(first, "media", Arr([]));
      if !Truthy(media) then Stop(NoMedia)
      else
        match FirstIdentifier(media)
        case Raised(f) => Failed(f)
        case Got(url) =>
          if !Truthy(url) then Stop(NoImageUrl)
          else if !url.Str? then Failed(AttributeError)
          else
            var ext := ImageExtension(url.s);
            Run(Plan(url.s, Join(cfg.imageDir, id + "." + ext), Join(cfg.jsonDir, id + ".json"), Project(first)))
  }

  /** The writes an outcome performs: none unless it runs, and then the
      image download before the metadata write, each to its planned path. */
  function Effects(o: Outcome): (e: seq<Effect>)
    ensures !o.Run? ==> e == []
    ensures o.Run? ==> |e| == 2 && e[0].DownloadImage? && e[1].WriteMetadata?
    ensures o.Run? ==> forall k :: 0 <= k < |e| ==> e[k].path in {o.plan.imagePath, o.plan.jsonPath}
  {
    match o
    case Run(p) => [DownloadImage(p.imageUrl, p.imagePath), WriteMetadata(p.jsonPath, p.metadata)]
    case _ => []
  }

  /** The first record's `media` is a non-empty list whose first entry is a
      dict carrying a non-empty string `identifier`: the one shape of input
      from which the script downloads anything. */
  predicate HasImageUrl(records: seq<Record>)
  {
    && |records| > 0
    && "media" in records[0]
    && records[0]["media"].Arr?
    && |records[0]["media"].items| > 0
    && records[0]["media"].items[0].Obj?
    && "identifier" in records[0]["media"].items[0].fields
    && records[0]["media"].items[0].fields["identifier"].Str?
    && records[0]["media"].items[0].fields["identifier"].s != ""
  }

  function FirstImageUrl(records: seq<Record>): string
    requires HasImageUrl(records)
  {
    records[0]["media"].items[0].fields["identifier"].s
  }

  /** The script downloads exactly when the input has that shape, and then
      from the first record's first media identifier. */
  lemma RunsExactlyWithImageUrl(cfg: Config, records: seq<Record>)
    ensures PlanRun(cfg, records).Run? <==> HasImageUrl(records)
    ensures HasImageUrl(records) ==> PlanRun(cfg, records).plan.imageUrl == FirstImageUrl(records)
  {
  }

  /** A run's plan in full: the first media identifier as the URL, the two
      files named after the record's identifier, the projected metadata. */
  lemma RunPlanIs(cfg: Config, records: seq<Record>)
    requires HasImageUrl(records)
    ensures var url := FirstImageUrl(records);
      var id := RecordId(records[0]);
      PlanRun(cfg, records) == Run(Plan(url, Join(cfg.imageDir, id + "." + ImageExtension(url)),
                                        Join(cfg.jsonDir, id + ".json"), Project(records[0])))
  {
  }

  /** The three early returns, each in exactly its own situation: no records;
      a first record whose media is missing or falsy (null, false, zero, or
      empty); a first media entry that is a dict whose identifier is missing
      or falsy. */
  lemma StopsExactly(cfg: Config, records: seq<Record>)
    ensures PlanRun(cfg, records) == Stop(NoRecords) <==> records == []
    ensures PlanRun(cfg, records) == Stop(NoMedia) <==>
      records != [] && !Truthy(GetOr(records[0], "media", Arr([])))
    ensures PlanRun(cfg, records) == Stop(NoImageUrl) <==>
      && records != []
      && "media" in records[0]
      && records[0]["media"].Arr?
      && |records[0]["media"].items| > 0
      && records[0]["media"].items[0].Obj?
      && !Truthy(GetOr(records[0]["media"].items[0].fields, "identifier", Null))
  {
  }

  /** The malformed shapes, each raising its own exception inside the `try`
      block: a non-empty dict as `media` cannot be indexed with 0
      (`KeyError`); a true number or boolean cannot be indexed at all
      (`TypeError`); a string `media`, a first entry that is not a dict, or a
      truthy identifier that is not a string has no `get` or `split`
      (`AttributeError`). */
  lemma FailsExactly(cfg: Config, records: seq<Record>)
    ensures PlanRun(cfg, records) == Failed(KeyError) <==>
      && records != []
      && var media := GetOr(records[0], "media", Arr([]));
      media.Obj? && media.fields != map[]
    ensures PlanRun(cfg, records) == Failed(TypeError) <==>
      && records != []
      && var media := GetOr(records[0], "media", Arr([]));
      Truthy(media) && (media.Bool? || media.Int? || media.Float?)
    ensures PlanRun(cfg, records) == Failed(AttributeError) <==>
      && records != []
      && var media := GetOr(records[0], "media", Arr([]));
      && Truthy(media)
      && (|| media.Str?
          || (media.Arr? && !media.items[0].Obj?)
          || (&& media.Arr?
              && media.items[0].Obj?
              && Truthy(GetOr(media.items[0].fields, "identifier", Null))
              && !GetOr(media.items[0].fields, "identifier", Null).Str?))
  {
  }

  /** Missing media, a null media field and an empty media list all stop the
      script before anything is written. */
  lemma NoMediaNoWrites(cfg: Config, records: seq<Record>)
    requires records != []
    requires "media" !in records[0] || records[0]["media"] == Null || records[0]["media"] == Arr([])
    ensures PlanRun(cfg, records) == Stop(NoMedia)
    ensures Effects(PlanRun(cfg, records)) == []
  {
  }

  /** Nothing is written unless the run goes ahead; when it does, the image
      is downloaded first and the metadata written second, to the planned
      paths. */
  lemma WritesOnlyWhenRunning(cfg: Config, records: seq<Record>)
    ensures var o := PlanRun(cfg, records);
      Effects(o) == [] <==> !o.Run?
    ensures var o := PlanRun(cfg, records);
      o.Run? ==>
        && |Effects(o)| == 2
        && Effects(o)[0] == DownloadImage(FirstImageUrl(records), o.plan.imagePath)
        && Effects(o)[1] == WriteMetadata(o.plan.jsonPath, Project(records[0]))
  {
    RunsExactlyWithImageUrl(cfg, records);
  }

  /** Records after the first never matter. */
  lemma OnlyFirstRecordMatters(cfg: Config, records1: seq<Record>, records2: seq<Record>)
    requires records1 != [] && records2 != []
    requires records1[0] == records2[0]
    ensures PlanRun(cfg, records1) == PlanRun(cfg, records2)
  {
  }

  /** Both files are named after the record's identifier, the same stem the
      citation in the metadata ends with, and the image keeps one of the
      known extensions. */
  lemma FilesNamedAfterRecord(cfg: Config, records: seq<Record>)
    requires PlanRun(cfg, records).Run?
    ensures var p := PlanRun(cfg, records).plan;
      var id := RecordId(records[0]);
      && p.jsonPath == Join(cfg.jsonDir, id + ".json")
      && p.imagePath == Join(cfg.imageDir, id + "." + ImageExtension(p.imageUrl))
      && ImageExtension(p.imageUrl) in Allowed
      && Lookup(p.metadata, CitationKey) == Some(Str(CitationPrefix + id))
  {
    ProjectLookup(records[0], CitationKey);
  }

  /** With an identifier that holds no `/`, the files land directly inside
      the configured directories: `image_dir/<id>.<ext>` and
      `json_dir/<id>.json`. */
  lemma FilesInsideDirectories(cfg: Config, records: seq<Record>)
    requires PlanRun(cfg, records).Run?
    requires |cfg.imageDir| > 0 && cfg.imageDir[|cfg.imageDir| - 1] != '/'
    requires |cfg.jsonDir| > 0 && cfg.jsonDir[|cfg.jsonDir| - 1] != '/'
    requires '/' !in RecordId(records[0])
    ensures var p := PlanRun(cfg, records).plan;
      var id := RecordId(records[0]);
      var ext := ImageExtension(p.imageUrl);
      && p.imagePath == cfg.imageDir + "/" + id + "." + ext
      && p.jsonPath == cfg.jsonDir + "/" + id + ".json"
      && Basename(p.imagePath) == id + "." + ext
      && Basename(p.jsonPath) == id + ".json"
  {
    var p := PlanRun(cfg, records).plan;
    var id := RecordId(records[0]);
    var ext := ImageExtension(p.imageUrl);
    assert '/' !in ext by {
      assert ext == "jpg" || ext == "jpeg" || ext == "png" || ext == "gif";
    }
    assert '/' !in "." && '/' !in ".json";
    assert '/' !in id + "." + ext;
    assert '/' !in id + ".json";
    JoinRelative(cfg.imageDir, id + "." + ext);
    JoinRelative(cfg.jsonDir, id + ".json");
  }

  /** With an integer identifier, a null one or none at all, no `/` can
      reach the file names, so both files land directly inside the
      configured directories. */
  lemma ScalarIdFilesInside(cfg: Config, records: seq<Record>)
    requires PlanRun(cfg, records).Run?
    requires |cfg.imageDir| > 0 && cfg.imageDir[|cfg.imageDir| - 1] != '/'
    requires |cfg.jsonDir| > 0 && cfg.jsonDir[|cfg.jsonDir| - 1] != '/'
    requires "gbifID" !in records[0] || records[0]["gbifID"].Int? || records[0]["gbifID"].Bool? || records[0]["gbifID"] == Null
    ensures var p := PlanRun(cfg, records).plan;
      var id := RecordId(records[0]);
      && p.imagePath == cfg.imageDir + "/" + id + "." + ImageExtension(p.imageUrl)
      && p.jsonPath == cfg.jsonDir + "/" + id + ".json"
  {
    var r := records[0];
    if "gbifID" in r && r["gbifID"].Int? {
      RenderIntIsPlain(r["gbifID"].i);
    }
    assert '/' !in RecordId(r);
    FilesInsideDirectories(cfg, records);
  }
}

/** The report's aggregation: rows of five queries to one tree. */
module ReportData {
  import opened Options
  import opened Tables
  import opened ReportQueries

  /** Coordinates are printed only when both are there. */
  datatype Caption = Caption(time: Option<Time>, coords: Option<(real, real)>)
  datatype PhotoCell = Missing | Shown(dataUri: string, caption: Caption)
  datatype JobRow = JobRow(date: Day, finishedAt: Time, worker: string, checked: nat, total: nat, photos: seq<PhotoCell>)
  datatype ObjectSection = ObjectSection(name: string, address: string, jobs: seq<JobRow>)
  datatype PerObject = PerObject(name: string, address: string, planned: nat, done: nat, missed: nat)
  datatype SummaryData = SummaryData(objectCount: nat, planned: nat, done: nat, missed: nat, completionPct: nat,
                                     perObject: seq<PerObject>)
  datatype Report = Report(summary: SummaryData, objects: seq<ObjectSection>, missed: seq<MissedRow>)

  /** photoLoad: the data URI of a stored photo, None when loading or scaling it fails. */
  type Loader = S3Key -> Option<string>

  // === Specification ==========================================================

  function CaptionOf(p: PhotoRow): Caption {
    Caption(p.takenAt, if p.lat.Some? && p.lon.Some? then Some((p.lat.value, p.lon.value)) else None)
  }

  /** The photo rows of one execution, in the order listed. */
  function PhotosOf(rows: seq<PhotoRow>, e: Id): seq<PhotoRow> {
    if rows == [] then []
    else
      var n := |rows| - 1;
      PhotosOf(rows[..n], e) + if rows[n].exec == e then [rows[n]] else []
  }

  predicate Loads(p: PhotoRow, load: Loader) {
    p.uploadedAt.Some? ==> load(p.key).Some?
  }

  predicate AllLoad(ps: seq<PhotoRow>, load: Loader) {
    forall p | p in ps :: Loads(p, load)
  }

  function CellOf(p: PhotoRow, load: Loader): PhotoCell
    requires Loads(p, load)
  {
    if p.uploadedAt.None? then Missing else Shown(load(p.key).value, CaptionOf(p))
  }

  function Cells(ps: seq<PhotoRow>, load: Loader): seq<PhotoCell>
    requires AllLoad(ps, load)
  {
    seq(|ps|, k requires 0 <= k < |ps| => CellOf(ps[k], load))
  }

  /** The execution rows of one object, in the order listed. */
  function ExecsFor(rows: seq<ExecRow>, objectId: Id): seq<ExecRow> {
    if rows == [] then []
    else
      var n := |rows| - 1;
      ExecsFor(rows[..n], objectId) + if rows[n].objectId == objectId then [rows[n]] else []
  }

  predicate JobLoads(r: ExecRow, photos: seq<PhotoRow>, load: Loader) {
    AllLoad(PhotosOf(photos, r.exec), load)
  }

  function JobOf(r: ExecRow, photos: seq<PhotoRow>, load: Loader): JobRow
    requires JobLoads(r, photos, load)
  {
    JobRow(r.due, r.deviceFinishedAt, r.worker, r.checked, r.total, Cells(PhotosOf(photos, r.exec), load))
  }

  predicate JobsLoad(rs: seq<ExecRow>, photos: seq<PhotoRow>, load: Loader) {
    forall k | 0 <= k < |rs| :: JobLoads(rs[k], photos, load)
  }

  function Jobs(rs: seq<ExecRow>, photos: seq<PhotoRow>, load: Loader): seq<JobRow>
    requires JobsLoad(rs, photos, load)
  {
    seq(|rs|, k requires 0 <= k < |rs| => JobOf(rs[k], photos, load))
  }

  datatype Counts = Counts(planned: nat, done: nat, missed: nat)

  function Totals(rows: seq<SummaryRow>): Counts {
    if rows == [] then Counts(0, 0, 0)
    else
      var before, r := Totals(rows[..|rows| - 1]), rows[|rows| - 1];
      Counts(before.planned + r.planned, before.done + r.done, before.missed + r.missed)
  }

  /** The whole percentage of orders done, rounded down; 0 of none. */
  ghost predicate IsPercent(pct: nat, done: nat, planned: nat) {
    if planned == 0 then pct == 0 else pct * planned <= done * 100 < (pct + 1) * planned
  }

  lemma QuotientIsPercent(done: nat, planned: nat)
    requires planned > 0
    ensures IsPercent(done * 100 / planned, done, planned)
  {
    var q := done * 100 / planned;
    assert done * 100 == q * planned + done * 100 % planned;
    assert (q + 1) * planned == q * planned + planned;
  }

  ghost predicate IsAddress(s: string, a: Option<string>) {
    s == if a.Some? then a.value else ""
  }

  /** One object's line of the summary. */
  ghost predicate IsLine(line: PerObject, r: SummaryRow) {
    && line.name == r.name && IsAddress(line.address, r.address)
    && line.planned == r.planned && line.done == r.done && line.missed == r.missed
  }

  ghost predicate SummaryBuilt(summary: SummaryData, rows: seq<SummaryRow>) {
    && summary.objectCount == |rows| == |summary.perObject|
    && Counts(summary.planned, summary.done, summary.missed) == Totals(rows)
    && IsPercent(summary.completionPct, summary.done, summary.planned)
    && forall k | 0 <= k < |rows| :: IsLine(summary.perObject[k], rows[k])
  }

  ghost predicate SectionBuilt(section: ObjectSection, r: SummaryRow, execs: seq<ExecRow>, photos: seq<PhotoRow>, load: Loader) {
    && JobsLoad(ExecsFor(execs, r.objectId), photos, load)
    && section.name == r.name && IsAddress(section.address, r.address)
    && section.jobs == Jobs(ExecsFor(execs, r.objectId), photos, load)
  }

  /** The tree is built from these rows. */
  ghost predicate Builds(data: Report, rows: seq<SummaryRow>, execs: seq<ExecRow>, photos: seq<PhotoRow>,
                         missed: seq<MissedRow>, load: Loader) {
    && data.missed == missed && SummaryBuilt(data.summary, rows)
    && |data.objects| == |rows|
    && forall k | 0 <= k < |rows| :: SectionBuilt(data.objects[k], rows[k], execs, photos, load)
  }

  predicate Distinct(rows: seq<SummaryRow>) {
    forall j, k | 0 <= j < k < |rows| :: rows[j].objectId != rows[k].objectId
  }

  // === The program ============================================================

  /** `meta` starts every listed object off without jobs. */
  ghost predicate Started(meta: map<Id, ObjectSection>, order: seq<Id>, rows: seq<SummaryRow>) {
    && |order| == |rows|
    && (forall k | 0 <= k < |rows| ::
          && order[k] == rows[k].objectId && order[k] in meta
          && meta[order[k]].name == rows[k].name && IsAddress(meta[order[k]].address, rows[k].address) && meta[order[k]].jobs == [])
    && (forall o | o in meta :: HasRow(rows, o))
  }

  lemma TotalsSnoc(rows: seq<SummaryRow>, k: nat)
    requires k < |rows|
    ensures Totals(rows[..k + 1]) == Counts(Totals(rows[..k]).planned + rows[k].planned, Totals(rows[..k]).done + rows[k].done,
                                            Totals(rows[..k]).missed + rows[k].missed)
  {
    assert rows[..k + 1][..k] == rows[..k];
  }

  lemma StartOne(meta: map<Id, ObjectSection>, order: seq<Id>, rows: seq<SummaryRow>, k: nat, address: string)
    requires k < |rows| && Distinct(rows) && Started(meta, order, rows[..k]) && IsAddress(address, rows[k].address)
    ensures Started(meta[rows[k].objectId := ObjectSection(rows[k].name, address, [])], order + [rows[k].objectId], rows[..k + 1])
  {
  }

  ghost predicate Lined(lines: seq<PerObject>, rows: seq<SummaryRow>) {
    |lines| == |rows| && forall k | 0 <= k < |rows| :: IsLine(lines[k], rows[k])
  }

  lemma LineOne(lines: seq<PerObject>, rows: seq<SummaryRow>, k: nat, line: PerObject)
    requires k < |rows| && Lined(lines, rows[..k]) && IsLine(line, rows[k])
    ensures Lined(lines + [line], rows[..k + 1])
  {
    assert rows[..k + 1] == rows[..k] + [rows[k]];
  }

  lemma AllGathered(counts: Counts, lines: seq<PerObject>, order: seq<Id>, meta: map<Id, ObjectSection>, rows: seq<SummaryRow>, pct: nat)
    requires counts == Totals(rows[..|rows|]) && Lined(lines, rows[..|rows|]) && Started(meta, order, rows[..|rows|])
    requires IsPercent(pct, counts.done, counts.planned)
    ensures SummaryBuilt(SummaryData(|rows|, counts.planned, counts.done, counts.missed, pct, lines), rows)
    ensures Started(meta, order, rows)
  {
    assert rows[..|rows|] == rows;
  }

  method CompletionPct(done: nat, planned: nat) returns (pct: nat)
    ensures IsPercent(pct, done, planned)
  {
    pct := 0;
    if planned > 0 {
      QuotientIsPercent(done, planned);
      pct := done * 100 / planned;
    }
  }

  method BuildSummary(rows: seq<SummaryRow>) returns (summary: SummaryData, order: seq<Id>, meta: map<Id, ObjectSection>)
    requires Distinct(rows)
    ensures SummaryBuilt(summary, rows) && Started(meta, order, rows)
  {
    var planned: nat, done: nat, missed: nat := 0, 0, 0;
    var perObject := [];
    order, meta := [], map[];
    for k := 0 to |rows|
      invariant Counts(planned, done, missed) == Totals(rows[..k])
      invariant Lined(perObject, rows[..k]) && Started(meta, order, rows[..k])
    {
      var s := rows[k];
      var address := if s.address.Some? then s.address.value else "";
      var line := PerObject(s.name, address, s.planned, s.done, s.missed);
      TotalsSnoc(rows, k);
      LineOne(perObject, rows, k, line);
      StartOne(meta, order, rows, k, address);
      planned, done, missed := planned + s.planned, done + s.done, missed + s.missed;
      perObject := perObject + [line];
      order := order + [s.objectId];
      meta := meta[s.objectId := ObjectSection(s.name, address, [])];
    }
    var pct := CompletionPct(done, planned);
    AllGathered(Counts(planned, done, missed), perObject, order, meta, rows, pct);
    summary := SummaryData(|rows|, planned, done, missed, pct, perObject);
  }

  method LoadPhotosByExecution(photos: seq<PhotoRow>) returns (byExec: map<Id, seq<PhotoRow>>)
    ensures Indexes(byExec, photos)
  {
    byExec := map[];
    for k := 0 to |photos|
      invariant forall e :: PhotosOf(photos[..k], e) == if e in byExec then byExec[e] else []
    {
      assert photos[..k + 1][..k] == photos[..k];
      var p := photos[k];
      var before := if p.exec in byExec then byExec[p.exec] else [];
      byExec := byExec[p.exec := before + [p]];
    }
    assert photos[..|photos|] == photos;
  }

  /** buildPhotoCell for each photo of one job; an unconfirmed photo never reaches the loader. */
  method BuildCells(ps: seq<PhotoRow>, load: Loader) returns (cells: Option<seq<PhotoCell>>)
    ensures cells.Some? <==> AllLoad(ps, load)
    ensures cells.Some? ==> cells.value == Cells(ps, load)
  {
    var out := [];
    for k := 0 to |ps|
      invariant |out| == k && forall j | 0 <= j < k :: Loads(ps[j], load) && out[j] == CellOf(ps[j], load)
    {
      if ps[k].uploadedAt.None? {
        out := out + [Missing];
      } else {
        var uri := load(ps[k].key);
        if uri.None? {
          assert !Loads(ps[k], load);
          return None;
        }
        out := out + [Shown(uri.value, CaptionOf(ps[k]))];
      }
    }
    return Some(out);
  }

  ghost predicate GroupedAt(section: ObjectSection, start: ObjectSection, rs: seq<ExecRow>, photos: seq<PhotoRow>, load: Loader) {
    JobsLoad(rs, photos, load) && section == start.(jobs := start.jobs + Jobs(rs, photos, load))
  }

  /** Each known object has the jobs of its execution rows so far. */
  ghost predicate Grouped(meta: map<Id, ObjectSection>, start: map<Id, ObjectSection>, execs: seq<ExecRow>,
                          photos: seq<PhotoRow>, load: Loader) {
    && meta.Keys == start.Keys
    && forall o | o in meta :: GroupedAt(meta[o], start[o], ExecsFor(execs, o), photos, load)
  }

  lemma AppendJob(section: ObjectSection, start: ObjectSection, rs: seq<ExecRow>, r: ExecRow, photos: seq<PhotoRow>, load: Loader)
    requires GroupedAt(section, start, rs, photos, load) && JobLoads(r, photos, load)
    ensures GroupedAt(section.(jobs := section.jobs + [JobOf(r, photos, load)]), start, rs + [r], photos, load)
  {
  }

  function WithJob(meta: map<Id, ObjectSection>, o: Id, job: JobRow): map<Id, ObjectSection>
    requires o in meta
  {
    meta[o := meta[o].(jobs := meta[o].jobs + [job])]
  }

  ghost predicate Fails(known: set<Id>, r: ExecRow, photos: seq<PhotoRow>, load: Loader) {
    r.objectId in known && !JobLoads(r, photos, load)
  }

  ghost predicate SomeJobFails(known: set<Id>, execs: seq<ExecRow>, photos: seq<PhotoRow>, load: Loader) {
    exists r :: r in execs && Fails(known, r, photos, load)
  }

  ghost predicate Indexes(byExec: map<Id, seq<PhotoRow>>, photos: seq<PhotoRow>) {
    forall e :: PhotosOf(photos, e) == if e in byExec then byExec[e] else []
  }

  /** What one turn of the loop makes of `meta`; None when a photo fails. */
  ghost predicate Turned(meta: map<Id, ObjectSection>, next: Option<map<Id, ObjectSection>>, e: ExecRow,
                         photos: seq<PhotoRow>, load: Loader) {
    if e.objectId !in meta then next == Some(meta)
    else if JobLoads(e, photos, load) then next == Some(WithJob(meta, e.objectId, JobOf(e, photos, load)))
    else next == None
  }

  lemma GroupTurn(meta: map<Id, ObjectSection>, next: Option<map<Id, ObjectSection>>, start: map<Id, ObjectSection>,
                  execs: seq<ExecRow>, k: nat, photos: seq<PhotoRow>, load: Loader)
    requires k < |execs| && Grouped(meta, start, execs[..k], photos, load) && Turned(meta, next, execs[k], photos, load)
    ensures next.None? ==> SomeJobFails(start.Keys, execs, photos, load)
    ensures next.Some? ==> Grouped(next.value, start, execs[..k + 1], photos, load)
    ensures next.Some? && !SomeJobFails(start.Keys, execs[..k], photos, load) ==>
              !SomeJobFails(start.Keys, execs[..k + 1], photos, load)
  {
    var r := execs[k];
    assert next.None? <==> Fails(start.Keys, r, photos, load);
    assert execs[..k + 1] == execs[..k] + [r];
    assert execs[..k + 1][..k] == execs[..k];
    if next.Some? {
      forall o | o in next.value ensures GroupedAt(next.value[o], start[o], ExecsFor(execs[..k + 1], o), photos, load) {
        assert GroupedAt(meta[o], start[o], ExecsFor(execs[..k], o), photos, load);
        if o == r.objectId { AppendJob(meta[o], start[o], ExecsFor(execs[..k], o), r, photos, load); }
      }
    }
  }

  /** One turn of the loop: skip an unknown object, give up on a failing photo, else append. */
  method AddJob(meta: map<Id, ObjectSection>, e: ExecRow, byExec: map<Id, seq<PhotoRow>>, ghost photos: seq<PhotoRow>,
                load: Loader) returns (r: Option<map<Id, ObjectSection>>)
    requires Indexes(byExec, photos)
    ensures Turned(meta, r, e, photos, load)
  {
    if e.objectId !in meta { return Some(meta); }
    var ps := if e.exec in byExec then byExec[e.exec] else [];
    var cells := BuildCells(ps, load);
    if cells.None? { return None; }
    var job := JobRow(e.due, e.deviceFinishedAt, e.worker, e.checked, e.total, cells.value);
    return Some(WithJob(meta, e.objectId, job));
  }

  /** Appends each execution's job to its object's section; stops at the first photo that fails. */
  method GroupJobs(start: map<Id, ObjectSection>, execs: seq<ExecRow>, byExec: map<Id, seq<PhotoRow>>,
                   ghost photos: seq<PhotoRow>, load: Loader) returns (r: Option<map<Id, ObjectSection>>)
    requires Indexes(byExec, photos)
    ensures r.Some? ==> Grouped(r.value, start, execs, photos, load)
    ensures r.None? <==> SomeJobFails(start.Keys, execs, photos, load)
  {
    var meta: map<Id, ObjectSection> := start;
    assert Grouped(meta, start, execs[..0], photos, load) by { NothingGrouped(start, execs, photos, load); }
    for k := 0 to |execs|
      invariant Grouped(meta, start, execs[..k], photos, load)
      invariant !SomeJobFails(start.Keys, execs[..k], photos, load)
    {
      var next := AddJob(meta, execs[k], byExec, photos, load);
      GroupTurn(meta, next, start, execs, k, photos, load);
      if next.None? { return None; }
      meta := next.value;
    }
    assert execs[..|execs|] == execs;
    r := Some(meta);
  }

  lemma NothingGrouped(start: map<Id, ObjectSection>, execs: seq<ExecRow>, photos: seq<PhotoRow>, load: Loader)
    ensures Grouped(start, start, execs[..0], photos, load)
  {
  }

  /** The objects of the summary rows. */
  ghost function Known(rows: seq<SummaryRow>): set<Id> {
    set r | r in rows :: r.objectId
  }

  method BuildReportData(rows: seq<SummaryRow>, execs: seq<ExecRow>, photos: seq<PhotoRow>, missed: seq<MissedRow>,
                         load: Loader) returns (r: Option<Report>)
    requires Distinct(rows)
    ensures r.Some? ==> Builds(r.value, rows, execs, photos, missed, load)
    ensures r.None? <==> SomeJobFails(Known(rows), execs, photos, load)
  {
    var byExec := LoadPhotosByExecution(photos);
    var summary, order, start := BuildSummary(rows);
    StartedIsKnown(start, order, rows);
    var meta := GroupJobs(start, execs, byExec, photos, load);
    if meta.None? { return None; }
    var objects := CollectSections(order, meta.value);
    r := Some(Report(summary, objects, missed));
    SectionsAreBuilt(objects, meta.value, start, order, rows, execs, photos, load);
  }

  method CollectSections(order: seq<Id>, meta: map<Id, ObjectSection>) returns (objects: seq<ObjectSection>)
    requires forall k | 0 <= k < |order| :: order[k] in meta
    ensures |objects| == |order| && forall k | 0 <= k < |order| :: objects[k] == meta[order[k]]
  {
    objects := [];
    for k := 0 to |order|
      invariant |objects| == k && forall j | 0 <= j < k :: objects[j] == meta[order[j]]
    {
      objects := objects + [meta[order[k]]];
    }
  }

  lemma StartedIsKnown(meta: map<Id, ObjectSection>, order: seq<Id>, rows: seq<SummaryRow>)
    requires Started(meta, order, rows)
    ensures meta.Keys == Known(rows)
  {
  }

  lemma SectionsAreBuilt(objects: seq<ObjectSection>, meta: map<Id, ObjectSection>, start: map<Id, ObjectSection>,
                         order: seq<Id>, rows: seq<SummaryRow>, execs: seq<ExecRow>, photos: seq<PhotoRow>, load: Loader)
    requires Started(start, order, rows) && Grouped(meta, start, execs, photos, load)
    requires |objects| == |order| && forall k | 0 <= k < |order| :: order[k] in meta && objects[k] == meta[order[k]]
    ensures forall k | 0 <= k < |rows| :: SectionBuilt(objects[k], rows[k], execs, photos, load)
  {
  }
}

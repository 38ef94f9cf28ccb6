/**
 * Which source answers for which dates, and what a path's reads add up to (src/services/reads.ts). Days are numbers.
 */
module Reads {
  import opened Prelude

  type Path = nat
  type ExternalId = nat

  datatype Mode = Ga | Cms

  /** Inclusive on both sides; an absent side is open. */
  datatype Range = Range(from: Option<int>, to: Option<int>)

  datatype SourceRanges = SourceRanges(ga: Option<Range>, cms: Option<Range>)

  predicate InRange(day: int, r: Range) {
    (r.from.None? || r.from.value <= day) && (r.to.None? || day <= r.to.value)
  }

  /** The `date` filter of a query; no range means no query. */
  predicate IsAnswered(day: int, r: Option<Range>) {
    r.Some? && InRange(day, r.value)
  }

  function SplitRange(range: Range, mode: Mode, cmsFrom: int): SourceRanges {
    if mode.Ga? then SourceRanges(Some(range), None)
    else
      var gaTo := if range.to.Some? then Min(range.to.value, cmsFrom - 1) else cmsFrom - 1;
      var cmsLo := if range.from.Some? then Max(range.from.value, cmsFrom) else cmsFrom;
      SourceRanges(
        if range.from.Some? && range.from.value > gaTo then None else Some(Range(range.from, Some(gaTo))),
        if range.to.Some? && range.to.value < cmsLo then None else Some(Range(Some(cmsLo), range.to)))
  }

  /**
   * Every day of the range is answered by exactly one source — the CMS from its first day on, GA before it — and no
   * other day by either; a source is left out exactly when it has no day to answer.
   */
  lemma EveryDayHasOneSource(range: Range, mode: Mode, cmsFrom: int, day: int)
    ensures var split := SplitRange(range, mode, cmsFrom);
            && (IsAnswered(day, split.ga) <==> InRange(day, range) && (mode.Ga? || day < cmsFrom))
            && (IsAnswered(day, split.cms) <==> InRange(day, range) && mode.Cms? && day >= cmsFrom)
  {
  }

  lemma LeftOutWhenEmpty(range: Range, cmsFrom: int)
    ensures SplitRange(range, Cms, cmsFrom).ga.None? <==> forall day :: day < cmsFrom ==> !InRange(day, range)
    ensures SplitRange(range, Cms, cmsFrom).cms.None? <==> forall day :: day >= cmsFrom ==> !InRange(day, range)
  {
    var split := SplitRange(range, Cms, cmsFrom);
    if split.ga.Some? {
      assert InRange(split.ga.value.to.value, range);
    }
    if split.cms.Some? {
      assert InRange(split.cms.value.from.value, range);
    }
  }

  // ----- adding up -----

  /** One day's figures of one story, from either source. An absent push count is unknown, not 0. */
  datatype DayRow = DayRow(path: Path, externalId: Option<ExternalId>, day: int, views: nat, push: Option<nat>)

  datatype PathReads = PathReads(views: nat, pushViews: Option<nat>, usedGa: bool, usedCms: bool)

  predicate IsGaRow(path: Path, range: Option<Range>, r: DayRow) {
    r.path == path && IsAnswered(r.day, range)
  }

  /** By path, or by the old numeric id at its end. */
  predicate IsCmsRow(path: Path, id: Option<ExternalId>, range: Option<Range>, r: DayRow) {
    (r.path == path || (id.Some? && r.externalId == id)) && IsAnswered(r.day, range)
  }

  function GaRows(path: Path, range: Option<Range>): DayRow -> bool {
    r => IsGaRow(path, range, r)
  }

  function CmsRows(path: Path, id: Option<ExternalId>, range: Option<Range>): DayRow -> bool {
    r => IsCmsRow(path, id, range, r)
  }

  /**
   * Which days count for a path: GA's rows of that path before the CMS's first day, and the CMS's from then on, found
   * by path or by the old id; every day, in the old mode, from GA alone.
   */
  lemma WhichRowsCount(path: Path, id: Option<ExternalId>, range: Range, mode: Mode, cmsFrom: int, r: DayRow)
    ensures var split := SplitRange(range, mode, cmsFrom);
            && (GaRows(path, split.ga)(r) <==>
                  r.path == path && InRange(r.day, range) && (mode == Ga || r.day < cmsFrom))
            && (CmsRows(path, id, split.cms)(r) <==>
                  && (r.path == path || (exists n :: id == Some(n) && r.externalId == Some(n)))
                  && InRange(r.day, range) && mode == Cms && cmsFrom <= r.day)
  {
    EveryDayHasOneSource(range, mode, cmsFrom, r.day);
    if id.Some? {
      assert id == Some(id.value);
    }
  }

  function ViewsOf(r: DayRow): nat {
    r.views
  }

  function KnownPush(r: DayRow): nat {
    if r.push.Some? then r.push.value else 0
  }

  predicate IsUnknown(r: DayRow) {
    r.push.None?
  }

  method AddUp(rows: seq<DayRow>) returns (views: nat, push: nat, unknown: nat)
    ensures views == Sum(ViewsOf, rows) && push == Sum(KnownPush, rows) && unknown == Count(IsUnknown, rows)
  {
    views, push, unknown := 0, 0, 0;
    for n := 0 to |rows|
      invariant views == Sum(ViewsOf, rows[..n]) && push == Sum(KnownPush, rows[..n])
      invariant unknown == Count(IsUnknown, rows[..n])
    {
      assert rows[..n + 1] == rows[..n] + [rows[n]];
      SumConcat(ViewsOf, rows[..n], [rows[n]]);
      SumConcat(KnownPush, rows[..n], [rows[n]]);
      CountConcat(IsUnknown, rows[..n], [rows[n]]);
      views, push := views + rows[n].views, push + KnownPush(rows[n]);
      unknown := unknown + (if rows[n].push.None? then 1 else 0);
    }
    assert rows[..|rows|] == rows;
  }

  /** A day's figures join the total as they are; a day whose push count is unknown adds nothing to it. */
  lemma OneMoreDay(rows: seq<DayRow>, day: DayRow)
    ensures Sum(ViewsOf, rows + [day]) == Sum(ViewsOf, rows) + day.views
    ensures match day.push
            case Some(n) => Sum(KnownPush, rows + [day]) == Sum(KnownPush, rows) + n
            case None => Sum(KnownPush, rows + [day]) == Sum(KnownPush, rows)
    ensures Sum(ViewsOf, []) == 0 && Sum(KnownPush, []) == 0
  {
    SumConcat(ViewsOf, rows, [day]);
    SumConcat(KnownPush, rows, [day]);
    assert Sum(ViewsOf, [day]) == day.views + Sum(ViewsOf, []);
    assert Sum(KnownPush, [day]) == KnownPush(day) + Sum(KnownPush, []);
  }

  /**
   * A path's reads over a range: GA's days plus the CMS's, no day twice; absent when neither has a row; and no push
   * count at all when a contributing CMS day has none.
   */
  method ReadsForPath(path: Path, id: Option<ExternalId>, ga: seq<DayRow>, cms: seq<DayRow>, range: Range, mode: Mode,
                      cmsFrom: int) returns (r: Option<PathReads>)
    ensures var split := SplitRange(range, mode, cmsFrom);
            var g, c := Filter(GaRows(path, split.ga), ga), Filter(CmsRows(path, id, split.cms), cms);
            && (r.None? <==> g == [] && c == [])
            && (r.Some? ==>
                  && r.value.views == Sum(ViewsOf, g) + Sum(ViewsOf, c)
                  && (r.value.pushViews.None? <==> exists x :: x in c && x.push.None?)
                  && (r.value.pushViews.Some? ==> r.value.pushViews.value == Sum(KnownPush, g) + Sum(KnownPush, c))
                  && (r.value.usedGa <==> g != []) && (r.value.usedCms <==> c != []))
  {
    var split := SplitRange(range, mode, cmsFrom);
    var g, c := Filter(GaRows(path, split.ga), ga), Filter(CmsRows(path, id, split.cms), cms);
    if g == [] && c == [] {
      return None;
    }
    var gaViews, gaPush, _ := AddUp(g);
    var cmsViews, cmsPush, unknown := AddUp(c);
    if unknown > 0 {
      CountWitness(IsUnknown, c);
    } else {
      forall x | x in c
        ensures x.push.Some?
      {
        var i :| 0 <= i < |c| && c[i] == x;
        CountAround(IsUnknown, c, i);
      }
    }
    r := Some(PathReads(gaViews + cmsViews, if unknown > 0 then None else Some(gaPush + cmsPush), g != [], c != []));
  }

  /** Splitting a range at any day splits the reads: nothing is lost at the seam between the sources, or twice. */
  lemma {:induction false} RangesAddUp(path: Path, id: Option<ExternalId>, rows: seq<DayRow>, from: Option<int>,
                                       seam: int, to: Option<int>, mode: Mode, cmsFrom: int)
    requires (from.Some? ==> from.value <= seam) && (to.Some? ==> seam <= to.value)
    ensures var all := SplitRange(Range(from, to), mode, cmsFrom);
            var early := SplitRange(Range(from, Some(seam - 1)), mode, cmsFrom);
            var late := SplitRange(Range(Some(seam), to), mode, cmsFrom);
            && Sum(ViewsOf, Filter(GaRows(path, all.ga), rows))
            == Sum(ViewsOf, Filter(GaRows(path, early.ga), rows)) + Sum(ViewsOf, Filter(GaRows(path, late.ga), rows))
            && Sum(ViewsOf, Filter(CmsRows(path, id, all.cms), rows))
            == Sum(ViewsOf, Filter(CmsRows(path, id, early.cms), rows))
             + Sum(ViewsOf, Filter(CmsRows(path, id, late.cms), rows))
  {
    if rows != [] {
      var day := rows[0].day;
      EveryDayHasOneSource(Range(from, to), mode, cmsFrom, day);
      EveryDayHasOneSource(Range(from, Some(seam - 1)), mode, cmsFrom, day);
      EveryDayHasOneSource(Range(Some(seam), to), mode, cmsFrom, day);
      RangesAddUp(path, id, rows[1..], from, seam, to, mode, cmsFrom);
      SumFilterHead(GaRows(path, SplitRange(Range(from, to), mode, cmsFrom).ga), rows);
      SumFilterHead(GaRows(path, SplitRange(Range(from, Some(seam - 1)), mode, cmsFrom).ga), rows);
      SumFilterHead(GaRows(path, SplitRange(Range(Some(seam), to), mode, cmsFrom).ga), rows);
      SumFilterHead(CmsRows(path, id, SplitRange(Range(from, to), mode, cmsFrom).cms), rows);
      SumFilterHead(CmsRows(path, id, SplitRange(Range(from, Some(seam - 1)), mode, cmsFrom).cms), rows);
      SumFilterHead(CmsRows(path, id, SplitRange(Range(Some(seam), to), mode, cmsFrom).cms), rows);
    }
  }

  lemma SumFilterHead(p: DayRow -> bool, rows: seq<DayRow>)
    requires rows != []
    ensures Sum(ViewsOf, Filter(p, rows))
         == (if p(rows[0]) then rows[0].views else 0) + Sum(ViewsOf, Filter(p, rows[1..]))
  {
    SumConcat(ViewsOf, if p(rows[0]) then [rows[0]] else [], Filter(p, rows[1..]));
  }
}

/** The state monitor: bar percentages read off HSV screen images, the health
    reading as the larger of two colour readings, the endurance-drop combat
    heuristic with its one remembered baseline, the polling wait for health,
    and linear rescaling of the stored UI regions. */
module GameState {
  import opened Py

  /** One pixel, already converted to hue/saturation/value. */
  datatype Hsv = Hsv(h: int, s: int, v: int)

  /** A screen image: rows of pixels (row index is y, column index is x). */
  type Image = seq<seq<Hsv>>

  /** Inclusive per-channel bounds. */
  datatype ColorRange = ColorRange(lower: Hsv, upper: Hsv)

  /** x, y, width, height of a screen rectangle. */
  datatype Region = Region(x: int, y: int, width: int, height: int)

  /** A snapshot of the stats dictionary; `None` is a missing key. */
  datatype Stats = Stats(
    health: Option<real>,
    endurance: Option<real>,
    experience: Option<real>,
    timestamp: Option<real>,
    inCombat: Option<bool>,
    enemyTargeted: Option<bool>)

  const HealthRed := ColorRange(Hsv(0, 120, 70), Hsv(10, 255, 255))
  const HealthGreen := ColorRange(Hsv(40, 120, 70), Hsv(80, 255, 255))
  const EnduranceBlue := ColorRange(Hsv(100, 120, 70), Hsv(130, 255, 255))
  const ExperienceYellow := ColorRange(Hsv(20, 120, 70), Hsv(30, 255, 255))

  const DefaultRegions: map<string, Region> := map[
    "health_bar" := Region(50, 50, 200, 20),
    "endurance_bar" := Region(50, 80, 200, 20),
    "experience_bar" := Region(50, 110, 300, 15),
    "chat_area" := Region(10, 400, 500, 200),
    "target_info" := Region(600, 50, 200, 100)]

  /** Edge pixels above which a target panel is taken to be shown. */
  const EdgeThreshold := 100

  /** Endurance drop (percentage points) above which the heuristic reports combat. */
  const CombatDrop := 5.0

  predicate InRange(p: Hsv, range: ColorRange)
  {
    && range.lower.h <= p.h <= range.upper.h
    && range.lower.s <= p.s <= range.upper.s
    && range.lower.v <= p.v <= range.upper.v
  }

  /** `image[y:y+height, x:x+width]` with numpy's slicing rules. */
  function Crop(image: Image, region: Region): (c: Image)
    ensures |c| <= |image|
  {
    var rows := Slice(image, region.y, region.y + region.height);
    seq(|rows|, i requires 0 <= i < |rows| => Slice(rows[i], region.x, region.x + region.width))
  }

  /** Matching pixels in one row. */
  function CountRow(row: seq<Hsv>, range: ColorRange): (c: nat)
    ensures c <= |row|
  {
    if row == [] then 0 else (if InRange(row[0], range) then 1 else 0) + CountRow(row[1..], range)
  }

  /** Matching pixels in an image (the non-zero entries of the colour mask). */
  function CountMatches(image: Image, range: ColorRange): nat
  {
    if image == [] then 0 else CountRow(image[0], range) + CountMatches(image[1..], range)
  }

  /** `min(100, max(0, p))`. */
  function Clamp(p: real): real
  {
    if p > 100.0 then 100.0 else if p < 0.0 then 0.0 else p
  }

  /** The requested area of a region. */
  function Area(region: Region): (a: int)
    ensures region.width > 0 && region.height > 0 ==> a > 0
  {
    region.width * region.height
  }

  /** extract_bar_percentage: matching pixels of the crop over the REQUESTED
      area, as a clamped percentage; 0 when the requested area is not positive. */
  function BarPercentage(image: Image, range: ColorRange, region: Region): (p: real)
    ensures 0.0 <= p <= 100.0
    ensures Area(region) <= 0 ==> p == 0.0
  {
    Percentage(CountMatches(Crop(image, region), range), Area(region))
  }

  /** `count` over `total` as a percentage clamped to [0, 100]; 0 when `total <= 0`. */
  function Percentage(count: nat, total: int): (p: real)
    ensures 0.0 <= p <= 100.0
    ensures total <= 0 ==> p == 0.0
  {
    if total > 0 then Clamp(count as real / total as real * 100.0) else 0.0
  }

  /** detect_enemy_target, given the edge-pixel count of the target panel. */
  predicate EnemyTargeted(edgeCount: int)
  {
    edgeCount > EdgeThreshold
  }

  /** Python's `int(v * (resolution / reference))` for one coordinate. */
  function Scale(v: int, resolution: int, reference: int): int
    requires reference > 0
  {
    Trunc(Scaled(v, resolution, reference))
  }

  /** The exact product `v * (resolution / reference)` before truncation. */
  function Scaled(v: int, resolution: int, reference: int): real
    requires reference > 0
  {
    v as real * (resolution as real / reference as real)
  }

  function ScaleRegion(r: Region, resolutionX: int, resolutionY: int): Region
  {
    Region(Scale(r.x, resolutionX, 1920), Scale(r.y, resolutionY, 1080),
           Scale(r.width, resolutionX, 1920), Scale(r.height, resolutionY, 1080))
  }

  /** The region map calibrate_ui_regions installs: every stored region rescaled. */
  function Calibrated(regions: map<string, Region>, resolutionX: int, resolutionY: int): (m: map<string, Region>)
    ensures m.Keys == regions.Keys
  {
    map n | n in regions :: ScaleRegion(regions[n], resolutionX, resolutionY)
  }

  /** The baseline and the answer of one combat-heuristic call. */
  datatype CombatReading = CombatReading(inCombat: bool, baseline: Option<real>)

  function CombatStep(baseline: Option<real>, endurance: real): CombatReading
  {
    if baseline.Some? && baseline.value - endurance > CombatDrop then CombatReading(true, baseline)
    else CombatReading(false, Some(endurance))
  }

  /** The answers of successive combat-heuristic calls on `samples`. */
  function CombatRun(baseline: Option<real>, samples: seq<real>): (answers: seq<bool>)
    ensures |answers| == |samples|
    decreases |samples|
  {
    if samples == [] then []
    else
      var step := CombatStep(baseline, samples[0]);
      [step.inCombat] + CombatRun(step.baseline, samples[1..])
  }

  class GameStateMonitor {
    var uiRegions: map<string, Region>
    /** `self.last_endurance`: `None` until the attribute is first set. */
    var lastEndurance: Option<real>

    ghost predicate Valid()
      reads this
    {
      uiRegions.Keys == DefaultRegions.Keys
    }

    constructor ()
      ensures Valid()
      ensures uiRegions == DefaultRegions && lastEndurance == None
    {
      uiRegions := DefaultRegions;
      lastEndurance := None;
    }

    /** get_health_percentage on one screenshot: the larger of the healthy and
        the damaged colour readings over the same health-bar region. */
    function HealthPercentage(screen: Image): (health: real)
      reads this
      requires Valid()
      ensures health >= BarPercentage(screen, HealthGreen, uiRegions["health_bar"])
      ensures health >= BarPercentage(screen, HealthRed, uiRegions["health_bar"])
      ensures health == BarPercentage(screen, HealthGreen, uiRegions["health_bar"])
           || health == BarPercentage(screen, HealthRed, uiRegions["health_bar"])
      ensures 0.0 <= health <= 100.0
    {
      var green := BarPercentage(screen, HealthGreen, uiRegions["health_bar"]);
      var red := BarPercentage(screen, HealthRed, uiRegions["health_bar"]);
      if green >= red then green else red
    }

    function EndurancePercentage(screen: Image): (endurance: real)
      reads this
      requires Valid()
      ensures 0.0 <= endurance <= 100.0
    {
      BarPercentage(screen, EnduranceBlue, uiRegions["endurance_bar"])
    }

    function ExperiencePercentage(screen: Image): (experience: real)
      reads this
      requires Valid()
      ensures 0.0 <= experience <= 100.0
    {
      BarPercentage(screen, ExperienceYellow, uiRegions["experience_bar"])
    }

    /** get_player_stats, each reading on its own screenshot, stamped `now`. */
    function PlayerStats(healthScreen: Image, enduranceScreen: Image, experienceScreen: Image, now: real): (s: Stats)
      reads this
      requires Valid()
      ensures s.health.Some? && 0.0 <= s.health.value <= 100.0
      ensures s.endurance.Some? && 0.0 <= s.endurance.value <= 100.0
      ensures s.experience.Some? && 0.0 <= s.experience.value <= 100.0
      ensures s.timestamp == Some(now) && s.inCombat == None && s.enemyTargeted == None
    {
      Stats(Some(HealthPercentage(healthScreen)), Some(EndurancePercentage(enduranceScreen)),
            Some(ExperiencePercentage(experienceScreen)), Some(now), None, None)
    }

    /** detect_combat_state on the endurance of a fresh stats sample. */
    method DetectCombatState(endurance: real) returns (inCombat: bool)
      modifies this
      ensures inCombat <==> old(lastEndurance).Some? && old(lastEndurance).value - endurance > CombatDrop
      ensures lastEndurance == if inCombat then old(lastEndurance) else Some(endurance)
      ensures CombatReading(inCombat, lastEndurance) == CombatStep(old(lastEndurance), endurance)
      ensures uiRegions == old(uiRegions)
    {
      if lastEndurance.Some? {
        var change := lastEndurance.value - endurance;
        if change > CombatDrop {
          return true;
        }
      }
      lastEndurance := Some(endurance);
      return false;
    }

    /** wait_for_health_recovery. `clock` is the sequence of `time.time()`
        readings (the first is the start time, one more per loop test) and
        `health` the successive health samples. Returns whether the target was
        reached and how many health samples were taken. */
    method WaitForHealthRecovery(target: real, timeout: real, clock: seq<real>, health: seq<real>)
      returns (recovered: bool, samples: nat)
      requires |clock| >= 2 && clock[|clock| - 1] - clock[0] >= timeout
      requires |health| >= |clock| - 1
      ensures samples <= |clock| - 1
      ensures forall j :: 1 <= j <= samples ==> clock[j] - clock[0] < timeout
      ensures recovered ==> samples >= 1 && health[samples - 1] >= target
      ensures forall i :: 0 <= i < samples && !(recovered && i == samples - 1) ==> health[i] < target
      ensures !recovered ==> samples + 1 < |clock| && clock[samples + 1] - clock[0] >= timeout
      ensures recovered <==> exists i :: 0 <= i < |clock| - 1 && health[i] >= target
                                      && forall j :: 1 <= j <= i + 1 ==> clock[j] - clock[0] < timeout
    {
      var startTime := clock[0];
      var t := 1;
      samples := 0;
      while clock[t] - startTime < timeout
        invariant 1 <= t < |clock| && samples == t - 1
        invariant forall j :: 1 <= j < t ==> clock[j] - startTime < timeout
        invariant forall i :: 0 <= i < samples ==> health[i] < target
        decreases |clock| - t
      {
        var h := health[samples];
        samples := samples + 1;
        if h >= target {
          return true, samples;
        }
        t := t + 1;
      }
      recovered := false;
      forall i | 0 <= i < |clock| - 1 && health[i] >= target
        ensures !(forall j :: 1 <= j <= i + 1 ==> clock[j] - clock[0] < timeout)
      {
        assert i >= samples;
        assert 1 <= t <= i + 1;
      }
    }

    /** calibrate_ui_regions: rescales the CURRENT regions, so calls compound. */
    method CalibrateUiRegions(resolutionX: int, resolutionY: int)
      requires Valid()
      modifies this
      ensures Valid()
      ensures uiRegions == Calibrated(old(uiRegions), resolutionX, resolutionY)
      ensures lastEndurance == old(lastEndurance)
    {
      var remaining := uiRegions.Keys;
      var calibrated: map<string, Region> := map[];
      while remaining != {}
        invariant remaining <= uiRegions.Keys
        invariant calibrated.Keys == uiRegions.Keys - remaining
        invariant forall n :: n in calibrated ==> calibrated[n] == ScaleRegion(uiRegions[n], resolutionX, resolutionY)
        decreases remaining
      {
        var n :| n in remaining;
        calibrated := calibrated[n := ScaleRegion(uiRegions[n], resolutionX, resolutionY)];
        remaining := remaining - {n};
      }
      uiRegions := calibrated;
    }
  }

  //
  // Bar extraction
  //

  lemma {:induction false} CountRowAllMatch(row: seq<Hsv>, range: ColorRange)
    requires forall j :: 0 <= j < |row| ==> InRange(row[j], range)
    ensures CountRow(row, range) == |row|
  {
    if row != [] {
      CountRowAllMatch(row[1..], range);
    }
  }

  lemma {:induction false} CountRowNoMatch(row: seq<Hsv>, range: ColorRange)
    requires forall p :: p in row ==> !InRange(p, range)
    ensures CountRow(row, range) == 0
  {
    if row != [] {
      CountRowNoMatch(row[1..], range);
    }
  }

  lemma {:induction false} CountMatchesAllMatch(image: Image, range: ColorRange, width: nat)
    requires forall i :: 0 <= i < |image| ==> |image[i]| == width
    requires forall i, j :: 0 <= i < |image| && 0 <= j < |image[i]| ==> InRange(image[i][j], range)
    ensures CountMatches(image, range) == |image| * width
  {
    if image != [] {
      CountRowAllMatch(image[0], range);
      CountMatchesAllMatch(image[1..], range, width);
    }
  }

  lemma {:induction false} CountMatchesNoMatch(image: Image, range: ColorRange)
    requires forall row, p :: row in image && p in row ==> !InRange(p, range)
    ensures CountMatches(image, range) == 0
  {
    if image != [] {
      CountRowNoMatch(image[0], range);
      CountMatchesNoMatch(image[1..], range);
    }
  }

  /** Rows or columns of `[start, start+len)` that fall inside `[0, n)`. */
  function Visible(n: nat, start: nat, len: nat): nat
  {
    Min(start + len, n) - Min(start, n)
  }

  /** Over an image whose rows all have `width` pixels and all match, the
      crop of a region with non-negative corner and positive size matches on
      exactly its visible rows times its visible columns. */
  lemma CropCountUniform(image: Image, range: ColorRange, region: Region, width: nat)
    requires forall i :: 0 <= i < |image| ==> |image[i]| == width
    requires forall i, j :: 0 <= i < |image| && 0 <= j < |image[i]| ==> InRange(image[i][j], range)
    requires region.x >= 0 && region.y >= 0 && region.width > 0 && region.height > 0
    ensures CountMatches(Crop(image, region), range)
         == Visible(|image|, region.y, region.height) * Visible(width, region.x, region.width)
  {
    var crop := Crop(image, region);
    var lo := Min(region.y, |image|);
    var rows := Slice(image, region.y, region.y + region.height);
    assert rows == image[lo..Min(region.y + region.height, |image|)];
    var cv := Visible(width, region.x, region.width);
    forall i | 0 <= i < |crop|
      ensures |crop[i]| == cv
      ensures forall j :: 0 <= j < |crop[i]| ==> InRange(crop[i][j], range)
    {
      assert rows[i] == image[lo + i];
      RowSliceUniform(image[lo + i], range, region.x, region.x + region.width);
    }
    CountMatchesAllMatch(crop, range, cv);
  }

  /** The column range of a region, cut from a row whose pixels all match. */
  lemma RowSliceUniform(row: seq<Hsv>, range: ColorRange, x: nat, stop: nat)
    requires x <= stop
    requires forall j :: 0 <= j < |row| ==> InRange(row[j], range)
    ensures |Slice(row, x, stop)| == Visible(|row|, x, stop - x)
    ensures forall j :: 0 <= j < |Slice(row, x, stop)| ==> InRange(Slice(row, x, stop)[j], range)
  {
    var a := Min(x, |row|);
    var part := Slice(row, x, stop);
    assert part == row[a..Min(stop, |row|)];
    forall j | 0 <= j < |part| ensures InRange(part[j], range) {
      assert part[j] == row[a + j];
    }
  }

  /** A count no larger than the area needs no clamping. */
  lemma UnclampedPercentage(count: nat, total: int)
    requires 0 < total && count <= total
    ensures Percentage(count, total) == count as real / total as real * 100.0
  {
    assert count as real / total as real <= 1.0;
  }

  lemma MulMonotone(a: nat, b: nat, c: nat, d: nat)
    requires a <= b && c <= d
    ensures a * c <= d * b
  {
    assert a * c <= b * c;
    assert b * c <= b * d;
  }

  /** A bar over an image whose every pixel matches reads the visible part of
      the requested region over its full area; partly off-screen regions are
      diluted because the denominator is the requested area. */
  lemma UniformBar(image: Image, range: ColorRange, region: Region, width: nat)
    requires forall i :: 0 <= i < |image| ==> |image[i]| == width
    requires forall i, j :: 0 <= i < |image| && 0 <= j < |image[i]| ==> InRange(image[i][j], range)
    requires region.x >= 0 && region.y >= 0 && region.width > 0 && region.height > 0
    ensures BarPercentage(image, range, region)
         == (Visible(|image|, region.y, region.height) * Visible(width, region.x, region.width)) as real
            / Area(region) as real * 100.0
  {
    var rv := Visible(|image|, region.y, region.height);
    var cv := Visible(width, region.x, region.width);
    CropCountUniform(image, range, region, width);
    assert CountMatches(Crop(image, region), range) == rv * cv;
    assert rv <= region.height && cv <= region.width;
    MulMonotone(rv, region.height, cv, region.width);
    BarOfCount(image, range, region, rv * cv);
  }

  /** The percentage read when the crop's match count fits in the requested area. */
  lemma BarOfCount(image: Image, range: ColorRange, region: Region, count: nat)
    requires region.width > 0 && region.height > 0
    requires CountMatches(Crop(image, region), range) == count <= Area(region)
    ensures BarPercentage(image, range, region) == count as real / Area(region) as real * 100.0
  {
    var total := Area(region);
    UnclampedPercentage(count, total);
    var p := BarPercentage(image, range, region);
    assert p == Percentage(count, total);
    assert p == count as real / total as real * 100.0;
  }

  /** Kept apart from FullBar: stated inline there, the real division sends
      the solver through that lemma's quantified requires. */
  lemma SelfQuotient(n: int)
    requires n > 0
    ensures n as real / n as real == 1.0
  {
  }

  /** A region inside the image whose every pixel matches reads 100. */
  lemma FullBar(image: Image, range: ColorRange, region: Region)
    requires region.x >= 0 && region.y >= 0 && region.width > 0 && region.height > 0
    requires region.y + region.height <= |image|
    requires forall i :: region.y <= i < region.y + region.height ==> region.x + region.width <= |image[i]|
    requires forall i, j :: region.y <= i < region.y + region.height && region.x <= j < region.x + region.width
                        ==> InRange(image[i][j], range)
    ensures BarPercentage(image, range, region) == 100.0
  {
    FullCropCount(image, range, region);
    var total := Area(region);
    BarOfCount(image, range, region, total);
    SelfQuotient(total);
  }

  /** The crop of such a region matches on every one of its pixels. */
  lemma FullCropCount(image: Image, range: ColorRange, region: Region)
    requires region.x >= 0 && region.y >= 0 && region.width > 0 && region.height > 0
    requires region.y + region.height <= |image|
    requires forall i :: region.y <= i < region.y + region.height ==> region.x + region.width <= |image[i]|
    requires forall i, j :: region.y <= i < region.y + region.height && region.x <= j < region.x + region.width
                        ==> InRange(image[i][j], range)
    ensures CountMatches(Crop(image, region), range) == Area(region)
  {
    var crop := Crop(image, region);
    var rows := Slice(image, region.y, region.y + region.height);
    assert rows == image[region.y..region.y + region.height];
    forall i | 0 <= i < |crop| ensures |crop[i]| == region.width {
      assert rows[i] == image[region.y + i];
    }
    forall i, j | 0 <= i < |crop| && 0 <= j < |crop[i]| ensures InRange(crop[i][j], range) {
      assert rows[i] == image[region.y + i];
      assert crop[i][j] == image[region.y + i][region.x + j];
    }
    CountMatchesAllMatch(crop, range, region.width);
    assert |crop| * region.width == region.width * |crop|;
  }

  /** A bar over an image with no matching pixel reads 0. */
  lemma EmptyBar(image: Image, range: ColorRange, region: Region)
    requires forall i, j :: 0 <= i < |image| && 0 <= j < |image[i]| ==> !InRange(image[i][j], range)
    ensures BarPercentage(image, range, region) == 0.0
  {
    var crop := Crop(image, region);
    var rows := Slice(image, region.y, region.y + region.height);
    forall row, p | row in crop && p in row ensures !InRange(p, range) {
      var i :| 0 <= i < |crop| && crop[i] == row;
      assert rows[i] in image;
      var k :| 0 <= k < |image| && image[k] == rows[i];
      assert p in image[k];
    }
    CountMatchesNoMatch(crop, range);
  }

  /** The target-panel test is a threshold on the edge count. */
  lemma EnemyTargetIsThreshold(c: int, d: int)
    ensures c <= d && EnemyTargeted(c) ==> EnemyTargeted(d)
    ensures EnemyTargeted(EdgeThreshold + 1) && !EnemyTargeted(EdgeThreshold)
  {
  }

  //
  // Combat heuristic
  //

  /** Once a baseline exists, a sustained drain of more than the threshold
      below it keeps reporting combat: the baseline is never refreshed while
      combat is reported. */
  lemma {:induction false} SustainedDrainStaysInCombat(baseline: real, samples: seq<real>)
    requires forall i :: 0 <= i < |samples| ==> baseline - samples[i] > CombatDrop
    ensures forall i :: 0 <= i < |samples| ==> CombatRun(Some(baseline), samples)[i]
  {
    if samples != [] {
      SustainedDrainStaysInCombat(baseline, samples[1..]);
    }
  }

  /** The first call never reports combat; after it, a reading is combat
      exactly when it is more than the threshold below the last earlier
      reading that was answered "not in combat" (or below the initial
      baseline when there is none). */
  lemma CombatRunAnswers(baseline: Option<real>, samples: seq<real>, i: nat)
    requires i < |samples|
    ensures baseline == None && i == 0 ==> !CombatRun(baseline, samples)[0]
    ensures CombatRun(baseline, samples)[i]
        <==> (var q := LastQuietReading(baseline, samples[..i], CombatRun(baseline, samples)[..i]);
              q.Some? && q.value - samples[i] > CombatDrop)
  {
    CombatRunStep(baseline, samples, i);
    CombatRunPrefix(baseline, samples, i);
    LastQuietIsSearch(baseline, samples[..i]);
  }

  /** Answer `i` is one heuristic step from the baseline the earlier readings leave. */
  lemma {:induction false} CombatRunStep(baseline: Option<real>, samples: seq<real>, i: nat)
    requires i < |samples|
    ensures CombatRun(baseline, samples)[i] == CombatStep(LastQuiet(baseline, samples[..i]), samples[i]).inCombat
    decreases i
  {
    if i > 0 {
      var step := CombatStep(baseline, samples[0]);
      CombatRunStep(step.baseline, samples[1..], i - 1);
      assert samples[1..][..i - 1] == samples[..i][1..];
    }
  }

  /** The first `i` answers of a run are the answers of its first `i` readings. */
  lemma {:induction false} CombatRunPrefix(baseline: Option<real>, samples: seq<real>, i: nat)
    requires i <= |samples|
    ensures CombatRun(baseline, samples)[..i] == CombatRun(baseline, samples[..i])
    decreases i
  {
    if i > 0 {
      var step := CombatStep(baseline, samples[0]);
      CombatRunPrefix(step.baseline, samples[1..], i - 1);
      assert samples[1..][..i - 1] == samples[..i][1..];
    }
  }

  /** The baseline after a run of readings, as the heuristic carries it forward. */
  function LastQuiet(baseline: Option<real>, samples: seq<real>): Option<real>
    decreases |samples|
  {
    if samples == [] then baseline else LastQuiet(CombatStep(baseline, samples[0]).baseline, samples[1..])
  }

  /** The last reading answered "not in combat", found by searching the
      answers from the end; the initial baseline when every answer was combat. */
  function LastQuietReading(baseline: Option<real>, samples: seq<real>, answers: seq<bool>): Option<real>
    requires |answers| == |samples|
    decreases |samples|
  {
    if samples == [] then baseline
    else if !answers[|answers| - 1] then Some(samples[|samples| - 1])
    else LastQuietReading(baseline, samples[..|samples| - 1], answers[..|answers| - 1])
  }

  /** Searching from the end past a first reading is the same as starting the
      search from the baseline that first reading leaves. */
  lemma {:induction false} LastQuietReadingFront(baseline: Option<real>, samples: seq<real>, answers: seq<bool>)
    requires |answers| == |samples| > 0
    ensures LastQuietReading(baseline, samples, answers)
         == LastQuietReading(if answers[0] then baseline else Some(samples[0]), samples[1..], answers[1..])
    decreases |samples|
  {
    var n := |samples|;
    if n > 1 && answers[n - 1] {
      LastQuietReadingFront(baseline, samples[..n - 1], answers[..n - 1]);
      assert samples[1..][..n - 2] == samples[..n - 1][1..];
      assert answers[1..][..n - 2] == answers[..n - 1][1..];
    }
  }

  /** The carried baseline is the last reading answered "not in combat". */
  lemma {:induction false} LastQuietIsSearch(baseline: Option<real>, samples: seq<real>)
    ensures LastQuiet(baseline, samples) == LastQuietReading(baseline, samples, CombatRun(baseline, samples))
    decreases |samples|
  {
    if samples != [] {
      var step := CombatStep(baseline, samples[0]);
      LastQuietIsSearch(step.baseline, samples[1..]);
      LastQuietReadingFront(baseline, samples, CombatRun(baseline, samples));
    }
  }

  //
  // Calibration
  //

  /** At its own reference resolution a coordinate scales to itself. */
  lemma ScaleAtReference(v: int, reference: int)
    requires reference > 0
    ensures Scale(v, reference, reference) == v
  {
    assert reference as real / reference as real == 1.0;
    assert v as real * 1.0 == v as real;
  }

  /** At the reference resolution calibration changes nothing. */
  lemma CalibrateAtReference(regions: map<string, Region>)
    ensures Calibrated(regions, 1920, 1080) == regions
  {
    forall n | n in regions ensures ScaleRegion(regions[n], 1920, 1080) == regions[n] {
      var r := regions[n];
      ScaleAtReference(r.x, 1920);
      ScaleAtReference(r.y, 1080);
      ScaleAtReference(r.width, 1920);
      ScaleAtReference(r.height, 1080);
    }
  }

  lemma HalfScale(v: nat, reference: int)
    requires reference > 0 && reference % 2 == 0
    ensures Scale(v, reference / 2, reference) == v / 2
  {
    var r := v as real * ((reference / 2) as real / reference as real);
    assert (reference / 2) as real / reference as real == 0.5;
    assert r == v as real * 0.5;
    var q := v / 2;
    assert v == 2 * q || v == 2 * q + 1;
    assert q as real <= r < q as real + 1.0;
  }

  /** Calibrating to half the reference resolution halves every non-negative
      coordinate, rounding down. */
  lemma CalibrateHalf(r: Region)
    requires r.x >= 0 && r.y >= 0 && r.width >= 0 && r.height >= 0
    ensures ScaleRegion(r, 960, 540) == Region(r.x / 2, r.y / 2, r.width / 2, r.height / 2)
  {
    HalfScale(r.x, 1920);
    HalfScale(r.y, 1080);
    HalfScale(r.width, 1920);
    HalfScale(r.height, 1080);
  }

  /** Calibration compounds: calibrating twice to half resolution quarters the
      regions, so a second call does not give the result of the first. */
  lemma CalibrateTwiceCompounds()
    ensures Calibrated(Calibrated(DefaultRegions, 960, 540), 960, 540)["health_bar"] == Region(12, 12, 50, 5)
    ensures Calibrated(DefaultRegions, 960, 540)["health_bar"] == Region(25, 25, 100, 10)
  {
    var once := Calibrated(DefaultRegions, 960, 540);
    assert DefaultRegions["health_bar"] == Region(50, 50, 200, 20);
    CalibrateHalf(Region(50, 50, 200, 20));
    assert once["health_bar"] == Region(25, 25, 100, 10);
    CalibrateHalf(Region(25, 25, 100, 10));
  }

  /** Calibrating to a resolution no larger than the reference never enlarges
      a non-negative coordinate, and strictly shrinks a positive one when the
      resolution is smaller. */
  lemma ScaleShrinks(v: int, resolution: int, reference: int)
    requires reference > 0 && 0 <= resolution <= reference && v >= 0
    ensures 0 <= Scale(v, resolution, reference) <= v
    ensures resolution < reference && v > 0 ==> Scale(v, resolution, reference) < v
  {
    ScaledBelow(v, resolution, reference);
    TruncBelow(Scaled(v, resolution, reference), v);
  }

  lemma ScaledBelow(v: int, resolution: int, reference: int)
    requires reference > 0 && 0 <= resolution <= reference && v >= 0
    ensures 0.0 <= Scaled(v, resolution, reference) <= v as real
    ensures resolution < reference && v > 0 ==> Scaled(v, resolution, reference) < v as real
  {
    FractionBounds(resolution, reference);
    ScaleDown(v as real, resolution as real / reference as real);
  }

  lemma TruncBelow(p: real, v: int)
    requires 0.0 <= p <= v as real
    ensures 0 <= Trunc(p) <= v
    ensures p < v as real ==> Trunc(p) < v
  {
  }

  lemma FractionBounds(n: int, d: int)
    requires 0 <= n <= d && d > 0
    ensures 0.0 <= n as real / d as real <= 1.0
    ensures n < d ==> n as real / d as real < 1.0
  {
  }

  lemma ScaleDown(a: real, s: real)
    requires a >= 0.0 && 0.0 <= s <= 1.0
    ensures 0.0 <= a * s <= a
    ensures a > 0.0 && s < 1.0 ==> a * s < a
  {
  }
}

/** The training-table builder of scripts/build_training_table.rb: header matching on
    normalised names, the yes/no symptom reading, the stand-minus-sit deltas and the proxy
    label cascade that turns one subject into a training target. */
module TrainingTable {
  import opened Wrappers
  import opened Domain
  import Numbers
  import Text

  // ---------------------------------------------------------------- header names

  /** The characters `normalize_name` keeps. */
  predicate Kept(c: char) {
    'a' <= c <= 'z' || '0' <= c <= '9'
  }

  /** `gsub(/[^a-z0-9]+/, " ")`: every maximal run of other characters becomes one space. */
  function Squash(s: string): (r: string)
    ensures forall i :: 0 <= i < |r| ==> Kept(r[i]) || r[i] == ' '
    ensures forall i :: 0 <= i < |r| - 1 ==> r[i] != ' ' || r[i + 1] != ' '
    ensures |s| > 0 ==> |r| > 0 && (r[|r| - 1] == ' ' <==> !Kept(s[|s| - 1]))
  {
    if |s| == 0 then ""
    else
      var n := |s| - 1;
      var init := Squash(s[..n]);
      assert n > 0 ==> s[..n][n - 1] == s[n - 1];
      if Kept(s[n]) then init + [s[n]]
      else if n > 0 && !Kept(s[n - 1]) then init
      else init + [' ']
  }

  /** What the last character of a non-empty text adds to its squashed prefix. */
  function SquashStep(u: string): string
    requires |u| > 0
  {
    if Kept(u[|u| - 1]) then [u[|u| - 1]]
    else if |u| > 1 && !Kept(u[|u| - 2]) then ""
    else " "
  }

  lemma SquashSnoc(u: string)
    requires |u| > 0
    ensures Squash(u) == Squash(u[..|u| - 1]) + SquashStep(u)
  {
  }

  /** A text of kept characters only is left as it is. */
  lemma {:induction false} SquashKeepsKept(s: string)
    requires forall i :: 0 <= i < |s| ==> Kept(s[i])
    ensures Squash(s) == s
  {
    if |s| > 0 {
      var n := |s| - 1;
      SquashSnoc(s);
      SquashKeepsKept(s[..n]);
      assert s == s[..n] + [s[n]];
    }
  }

  /** A non-empty run of other characters becomes a single space. */
  lemma {:induction false} SquashCollapsesRun(s: string)
    requires |s| > 0 && forall i :: 0 <= i < |s| ==> !Kept(s[i])
    ensures Squash(s) == " "
  {
    var n := |s| - 1;
    SquashSnoc(s);
    if n > 0 {
      SquashCollapsesRun(s[..n]);
    }
  }

  /** `Squash` works piecewise wherever the cut does not fall inside a run of other characters.
      With `SquashKeepsKept` and `SquashCollapsesRun` this fixes the result: the kept characters survive
      in order, and each maximal run of the others becomes exactly one space. */
  lemma {:induction false} SquashAppend(s: string, t: string)
    requires |s| == 0 || |t| == 0 || Kept(s[|s| - 1]) || Kept(t[0])
    ensures Squash(s + t) == Squash(s) + Squash(t)
  {
    if |t| == 0 {
      assert s + t == s;
    } else if |s| == 0 {
      assert s + t == t;
    } else {
      var n := |t| - 1;
      var u := s + t;
      assert u[..|u| - 1] == s + t[..n];
      SquashSnoc(u);
      SquashSnoc(t);
      if n == 0 {
        assert SquashStep(u) == SquashStep(t) by {
          assert u[|u| - 1] == t[0] && u[|u| - 2] == s[|s| - 1];
        }
        assert t[..n] == "";
        assert s + t[..n] == s;
      } else {
        assert SquashStep(u) == SquashStep(t) by {
          assert u[|u| - 1] == t[n] && u[|u| - 2] == t[n - 1];
        }
        SquashAppend(s, t[..n]);
      }
    }
  }

  /** The shape of a normalised name: lower-case letters and digits in words separated by
      single spaces, with no space at either end. */
  predicate NormalForm(s: string) {
    (forall i :: 0 <= i < |s| ==> Kept(s[i]) || s[i] == ' ')
    && (forall i :: 0 <= i < |s| - 1 ==> s[i] != ' ' || s[i + 1] != ' ')
    && (|s| > 0 ==> s[0] != ' ' && s[|s| - 1] != ' ')
  }

  /** `normalize_name`: down-case, collapse every run of other characters to a space, strip. */
  function NormalizeName(name: string): (r: string)
    ensures NormalForm(r)
  {
    var squashed := Squash(Text.Lower(name));
    StripSquashed(squashed);
    Text.Strip(squashed)
  }

  /** Stripping a squashed name leaves it in normal form. */
  lemma StripSquashed(s: string)
    requires forall i :: 0 <= i < |s| ==> Kept(s[i]) || s[i] == ' '
    requires forall i :: 0 <= i < |s| - 1 ==> s[i] != ' ' || s[i + 1] != ' '
    ensures NormalForm(Text.Strip(s))
  {
    var r := Text.Strip(s);
    var k := Text.StripOffset(s);
    assert forall i :: 0 <= i < |r| ==> r[i] == s[k + i];
  }

  lemma {:induction false} SquashKeepsNormalForm(s: string)
    requires forall i :: 0 <= i < |s| ==> Kept(s[i]) || s[i] == ' '
    requires forall i :: 0 <= i < |s| - 1 ==> s[i] != ' ' || s[i + 1] != ' '
    requires |s| > 0 ==> s[0] != ' '
    ensures Squash(s) == s
  {
    if |s| > 0 {
      var n := |s| - 1;
      SquashKeepsNormalForm(s[..n]);
      assert s == s[..n] + [s[n]];
    }
  }

  lemma StripFixed(s: string)
    requires |s| > 0 ==> !Text.IsStripSpace(s[0]) && !Text.IsStripSpace(s[|s| - 1])
    ensures Text.Strip(s) == s
  {
    var r := Text.Strip(s);
    if |s| > 0 {
      assert Text.StripOffset(s) == 0;
      assert |r| == |s|;
    }
  }

  /** A name already in normal form is its own normalisation. */
  lemma NormalFormIsFixed(s: string)
    requires NormalForm(s)
    ensures NormalizeName(s) == s
  {
    assert Text.Lower(s) == s;
    SquashKeepsNormalForm(s);
    StripFixed(s);
  }

  /** Normalising twice is normalising once. */
  lemma NormalizeIdempotent(name: string)
    ensures NormalizeName(NormalizeName(name)) == NormalizeName(name)
  {
    NormalFormIsFixed(NormalizeName(name));
  }

  /** The exact test of `find_header`: equal normalised names. */
  predicate Exact(header: string, candidate: string) {
    NormalizeName(header) == NormalizeName(candidate)
  }

  /** The partial test: either normalised name contains the other. */
  predicate Partial(header: string, candidate: string) {
    Text.Contains(NormalizeName(header), NormalizeName(candidate))
    || Text.Contains(NormalizeName(candidate), NormalizeName(header))
  }

  lemma ExactIsPartial(header: string, candidate: string)
    requires Exact(header, candidate)
    ensures Partial(header, candidate)
  {
    var n := NormalizeName(header);
    assert Text.OccursAt(n, n, 0);
  }

  /** The first position whose element satisfies `p`. */
  function FirstWhere<T>(xs: seq<T>, p: T -> bool): (r: Option<nat>)
    ensures r.Some? ==> r.value < |xs| && p(xs[r.value]) && forall j :: 0 <= j < r.value ==> !p(xs[j])
    ensures r.None? <==> forall j :: 0 <= j < |xs| ==> !p(xs[j])
  {
    if |xs| == 0 then None
    else if p(xs[0]) then Some(0)
    else
      var r := FirstWhere(xs[1..], p);
      assert forall j :: 1 <= j < |xs| ==> xs[1..][j - 1] == xs[j];
      if r.Some? then Some(r.value + 1) else None
  }

  /** The first header, in order, that matches `candidate` exactly. */
  function FirstExact(headers: seq<string>, candidate: string): (r: Option<nat>)
    ensures r.Some? ==>
      r.value < |headers| && Exact(headers[r.value], candidate) && forall j :: 0 <= j < r.value ==> !Exact(headers[j], candidate)
    ensures r.None? <==> forall j :: 0 <= j < |headers| ==> !Exact(headers[j], candidate)
  {
    FirstWhere(headers, h => Exact(h, candidate))
  }

  /** The first header, in order, that matches `candidate` partially. */
  function FirstPartial(headers: seq<string>, candidate: string): (r: Option<nat>)
    ensures r.Some? ==>
      r.value < |headers| && Partial(headers[r.value], candidate) && forall j :: 0 <= j < r.value ==> !Partial(headers[j], candidate)
    ensures r.None? <==> forall j :: 0 <= j < |headers| ==> !Partial(headers[j], candidate)
  {
    FirstWhere(headers, h => Partial(h, candidate))
  }

  /** `candidates[i]` is the earliest candidate that some header matches exactly. */
  predicate EarliestExact(headers: seq<string>, candidates: seq<string>, i: nat) {
    i < |candidates| && FirstExact(headers, candidates[i]).Some?
    && forall j :: 0 <= j < i ==> FirstExact(headers, candidates[j]).None?
  }

  /** `candidates[i]` is the earliest candidate that some header matches partially. */
  predicate EarliestPartial(headers: seq<string>, candidates: seq<string>, i: nat) {
    i < |candidates| && FirstPartial(headers, candidates[i]).Some?
    && forall j :: 0 <= j < i ==> FirstPartial(headers, candidates[j]).None?
  }

  /** The exact pass over the candidates in order: the first header matching the earliest
      candidate that has an exact match. */
  function ExactPass(headers: seq<string>, candidates: seq<string>): (r: Option<string>)
    ensures r.Some? ==> r.value in headers && exists c :: c in candidates && Exact(r.value, c)
    ensures r.None? <==> forall c, h :: c in candidates && h in headers ==> !Exact(h, c)
  {
    if |candidates| == 0 then None
    else
      match FirstExact(headers, candidates[0])
      case Some(i) => Some(headers[i])
      case None =>
        var r := ExactPass(headers, candidates[1..]);
        assert forall c :: c in candidates ==> c == candidates[0] || c in candidates[1..];
        r
  }

  /** The partial pass over the candidates in order: the first header matching the earliest
      candidate that has a partial match. */
  function PartialPass(headers: seq<string>, candidates: seq<string>): (r: Option<string>)
    ensures r.Some? ==> r.value in headers && exists c :: c in candidates && Partial(r.value, c)
    ensures r.None? <==> forall c, h :: c in candidates && h in headers ==> !Partial(h, c)
  {
    if |candidates| == 0 then None
    else
      match FirstPartial(headers, candidates[0])
      case Some(i) => Some(headers[i])
      case None =>
        var r := PartialPass(headers, candidates[1..]);
        assert forall c :: c in candidates ==> c == candidates[0] || c in candidates[1..];
        r
  }

  /** A pass over the candidates in order, `pick` giving each candidate's matching header
      position, if any: the header picked for the earliest candidate that has one. */
  function PassBy(headers: seq<string>, candidates: seq<string>, pick: string -> Option<nat>): Option<string>
    requires forall c :: pick(c).Some? ==> pick(c).value < |headers|
  {
    if |candidates| == 0 then None
    else
      match pick(candidates[0])
      case Some(i) => Some(headers[i])
      case None => PassBy(headers, candidates[1..], pick)
  }

  /** A pass returns the header picked for the earliest candidate that picks one. */
  lemma {:induction false} PassByPriority(headers: seq<string>, candidates: seq<string>, pick: string -> Option<nat>, i: nat)
    requires forall c :: pick(c).Some? ==> pick(c).value < |headers|
    requires i < |candidates| && pick(candidates[i]).Some?
    requires forall j :: 0 <= j < i ==> pick(candidates[j]).None?
    ensures PassBy(headers, candidates, pick) == Some(headers[pick(candidates[i]).value])
  {
    if i > 0 {
      var rest := candidates[1..];
      assert rest[i - 1] == candidates[i];
      assert forall j :: 0 <= j < i - 1 ==> rest[j] == candidates[j + 1];
      PassByPriority(headers, rest, pick, i - 1);
    }
  }

  /** The exact pass is the pass that picks each candidate's first exact header. */
  lemma {:induction false} ExactPassIsPassBy(headers: seq<string>, candidates: seq<string>)
    ensures ExactPass(headers, candidates) == PassBy(headers, candidates, c => FirstExact(headers, c))
  {
    if |candidates| > 0 {
      ExactPassIsPassBy(headers, candidates[1..]);
    }
  }

  /** The partial pass is the pass that picks each candidate's first partial header. */
  lemma {:induction false} PartialPassIsPassBy(headers: seq<string>, candidates: seq<string>)
    ensures PartialPass(headers, candidates) == PassBy(headers, candidates, c => FirstPartial(headers, c))
  {
    if |candidates| > 0 {
      PartialPassIsPassBy(headers, candidates[1..]);
    }
  }

  /** The exact pass returns the first header that matches the earliest candidate with any
      exact match. */
  lemma ExactPassPriority(headers: seq<string>, candidates: seq<string>, i: nat)
    requires EarliestExact(headers, candidates, i)
    ensures ExactPass(headers, candidates) == Some(headers[FirstExact(headers, candidates[i]).value])
  {
    ExactPassIsPassBy(headers, candidates);
    PassByPriority(headers, candidates, c => FirstExact(headers, c), i);
  }

  /** The partial pass returns the first header that matches the earliest candidate with any
      partial match. */
  lemma PartialPassPriority(headers: seq<string>, candidates: seq<string>, i: nat)
    requires EarliestPartial(headers, candidates, i)
    ensures PartialPass(headers, candidates) == Some(headers[FirstPartial(headers, candidates[i]).value])
  {
    PartialPassIsPassBy(headers, candidates);
    PassByPriority(headers, candidates, c => FirstPartial(headers, c), i);
  }

  /** `find_header`: an exact match if any candidate has one (taking the earliest candidate
      that does, and its first header), only then a partial match; nil exactly when no header
      matches any candidate even partially. */
  function FindHeader(headers: seq<string>, candidates: seq<string>): (r: Option<string>)
    ensures r.Some? ==> r.value in headers
    ensures (exists c, h :: c in candidates && h in headers && Exact(h, c)) ==>
      r.Some? && exists c :: c in candidates && Exact(r.value, c)
    ensures r.Some? ==> exists c :: c in candidates && Partial(r.value, c)
    ensures r.None? <==> forall c, h :: c in candidates && h in headers ==> !Partial(h, c)
  {
    var exact := ExactPass(headers, candidates);
    if exact.Some? then
      ExactFoundIsPartial(headers, candidates, exact.value);
      exact
    else PartialPass(headers, candidates)
  }

  /** `find_header` takes the first header of the earliest candidate with an exact match. */
  lemma FindHeaderPrefersExact(headers: seq<string>, candidates: seq<string>, i: nat)
    requires EarliestExact(headers, candidates, i)
    ensures FindHeader(headers, candidates) == Some(headers[FirstExact(headers, candidates[i]).value])
  {
    ExactPassPriority(headers, candidates, i);
  }

  /** Only when no candidate has an exact match does `find_header` fall back to the first
      header of the earliest candidate with a partial match. */
  lemma FindHeaderFallsBackToPartial(headers: seq<string>, candidates: seq<string>, i: nat)
    requires forall j :: 0 <= j < |candidates| ==> FirstExact(headers, candidates[j]).None?
    requires EarliestPartial(headers, candidates, i)
    ensures FindHeader(headers, candidates) == Some(headers[FirstPartial(headers, candidates[i]).value])
  {
    ExactPassIsPassBy(headers, candidates);
    PassByNone(headers, candidates, c => FirstExact(headers, c));
    PartialPassPriority(headers, candidates, i);
  }

  /** A pass in which no candidate picks a header finds nothing. */
  lemma {:induction false} PassByNone(headers: seq<string>, candidates: seq<string>, pick: string -> Option<nat>)
    requires forall c :: pick(c).Some? ==> pick(c).value < |headers|
    requires forall i :: 0 <= i < |candidates| ==> pick(candidates[i]).None?
    ensures PassBy(headers, candidates, pick).None?
  {
    if |candidates| > 0 {
      var rest := candidates[1..];
      assert forall i :: 0 <= i < |rest| ==> rest[i] == candidates[i + 1];
      PassByNone(headers, rest, pick);
    }
  }

  lemma ExactFoundIsPartial(headers: seq<string>, candidates: seq<string>, found: string)
    requires found in headers && exists c :: c in candidates && Exact(found, c)
    ensures exists c :: c in candidates && Partial(found, c)
    ensures !forall c, h :: c in candidates && h in headers ==> !Partial(h, c)
  {
    var c :| c in candidates && Exact(found, c);
    ExactIsPartial(found, c);
  }

  // ---------------------------------------------------------------- one subject

  /** `yes_value?`: the stripped, upper-cased text is exactly YES. */
  predicate YesValue(value: string) {
    Text.Upper(Text.Strip(value)) == "YES"
  }

  /** The label thresholds of the cascade. */
  const SbpDrop: real := -20.0
  const HrRise: real := 30.0
  const HighRestingHr: real := 90.0

  /** The fields `phenotype_for` reads. */
  datatype LabelInput = LabelInput(
    symptomOh: string, symptomSyncope: string, symptomDizziness: string,
    deltaHr: Option<real>, deltaSbp: Option<real>, restingHr: Option<real>, group: string)

  /** Which sentence of `notes` the label carries. */
  datatype LabelNote = OhNote | SyncopeNote | PotsNote | IstNote | DizzinessNote | QuietNote

  datatype Label = Label(status: Status, hint: Hint, confidence: Confidence, note: LabelNote)

  predicate SbpDropped(x: LabelInput) {
    x.deltaSbp.Some? && x.deltaSbp.value <= SbpDrop
  }

  predicate OhSignal(x: LabelInput) {
    YesValue(x.symptomOh) || SbpDropped(x)
  }

  predicate PotsSignal(x: LabelInput) {
    x.deltaHr.Some? && x.deltaHr.value >= HrRise && (x.deltaSbp.None? || x.deltaSbp.value > SbpDrop)
  }

  predicate IstSignal(x: LabelInput) {
    x.restingHr.Some? && x.restingHr.value >= HighRestingHr && (x.deltaHr.None? || x.deltaHr.value < HrRise)
  }

  predicate IsControl(x: LabelInput) {
    Text.Contains(Text.Upper(x.group), "CONTROL")
  }

  /** `phenotype_for`: the first pattern that holds, in the order OH (a reported symptom or an
      SBP drop of at least 20), vasovagal (reported syncope), POTS (an HR rise of at least 30
      without such a drop), IST (a resting HR of at least 90 without such a rise), else normal.
      Exactly the normal label does not need follow-up. An OH label is medium-confidence only
      when symptom and drop agree; a normal label is high-confidence only for a control-group
      subject. */
  function PhenotypeFor(x: LabelInput): (r: Label)
    ensures r.status == Normal || r.status == NeedsFollowup
    ensures r.status == Normal <==> r.hint == NormalHint
    ensures r.hint == OhLike <==> OhSignal(x)
    ensures r.hint == VvsLike <==> !OhSignal(x) && YesValue(x.symptomSyncope)
    ensures r.hint == PotsLike <==> !OhSignal(x) && !YesValue(x.symptomSyncope) && PotsSignal(x)
    ensures r.hint == IstLike <==> !OhSignal(x) && !YesValue(x.symptomSyncope) && !PotsSignal(x) && IstSignal(x)
    ensures r.hint in {OhLike, VvsLike, PotsLike, IstLike, NormalHint}
    ensures r.hint == OhLike ==> (r.confidence == Medium <==> YesValue(x.symptomOh) && SbpDropped(x))
    ensures r.hint == OhLike || r.hint == VvsLike ==> r.confidence in {Medium, Low}
    ensures r.hint == PotsLike || r.hint == IstLike ==> r.confidence == Medium
    ensures r.hint == NormalHint ==> (r.confidence == High <==> IsControl(x)) && r.confidence in {High, Low}
    ensures r.hint == NormalHint ==> (r.note == DizzinessNote <==> YesValue(x.symptomDizziness))
  {
    if OhSignal(x) then
      Label(NeedsFollowup, OhLike, if YesValue(x.symptomOh) && SbpDropped(x) then Medium else Low, OhNote)
    else if YesValue(x.symptomSyncope) then
      Label(NeedsFollowup, VvsLike, Low, SyncopeNote)
    else if PotsSignal(x) then
      Label(NeedsFollowup, PotsLike, Medium, PotsNote)
    else if IstSignal(x) then
      Label(NeedsFollowup, IstLike, Medium, IstNote)
    else
      Label(Normal, NormalHint, if IsControl(x) then High else Low,
            if YesValue(x.symptomDizziness) then DizzinessNote else QuietNote)
  }

  /** POTS and OH patterns never share a subject: a large enough SBP drop always wins. */
  lemma SbpDropOverridesEverything(x: LabelInput)
    requires SbpDropped(x)
    ensures PhenotypeFor(x).hint == OhLike && PhenotypeFor(x).status == NeedsFollowup
  {
  }

  /** `(stand - sit).round(3)` when both are present, nil otherwise. */
  function Delta(sit: Option<real>, stand: Option<real>): (d: Option<real>)
    ensures d.Some? <==> sit.Some? && stand.Some?
    ensures d.Some? ==> -0.0005 <= d.value - (stand.value - sit.value) <= 0.0005
  {
    if sit.Some? && stand.Some? then Some(Numbers.Round3(stand.value - sit.value)) else None
  }

  // ---------------------------------------------------------------- the table

  /** The source columns the builder found; nil for a column no header matched. */
  datatype Columns = Columns(
    subject: Option<string>, group: Option<string>, age: Option<string>, restingHr: Option<string>,
    hrvSdnn: Option<string>, sitHr: Option<string>, standHr: Option<string>, sitSbp: Option<string>,
    standSbp: Option<string>, dizziness: Option<string>, syncope: Option<string>, oh: Option<string>)

  /** The header lookups of the builder, each with its candidate names. */
  function LocateColumns(headers: seq<string>): (c: Columns)
    ensures c.subject == FindHeader(headers, ["subject_number"])
    ensures c.group == FindHeader(headers, ["group"])
    ensures c.age == FindHeader(headers, ["age"])
    ensures c.restingHr == FindHeader(headers, ["(Baseline Mean) HR BP BASELINE", "baseline hr"])
    ensures c.hrvSdnn == FindHeader(headers, ["HRV_ SDNN", "hrv sdnn"])
    ensures c.sitHr == FindHeader(headers, ["(SitEO mn) SitEO HR mean", "siteo hr mean"])
    ensures c.standHr == FindHeader(headers, ["(StandEO mn) Mean HR StandEO", "standeo mean hr"])
    ensures c.sitSbp == FindHeader(headers, ["Systolic BP SitEO", "sys bp siteo"])
    ensures c.standSbp == FindHeader(headers, ["Sys BP StandEO", "standeo sys bp"])
    ensures c.dizziness == FindHeader(headers, ["Dizziness AUTONOMIC SYMPTOMS", "dizziness autonomic symptoms"])
    ensures c.syncope == FindHeader(headers, ["Syncope AUTONOMIC SYMPTOMS", "syncope autonomic symptoms"])
    ensures c.oh == FindHeader(headers, ["OH AUTONOMIC SYMPTOMS", "oh autonomic symptoms"])
  {
    Columns(
      FindHeader(headers, ["subject_number"]),
      FindHeader(headers, ["group"]),
      FindHeader(headers, ["age"]),
      FindHeader(headers, ["(Baseline Mean) HR BP BASELINE", "baseline hr"]),
      FindHeader(headers, ["HRV_ SDNN", "hrv sdnn"]),
      FindHeader(headers, ["(SitEO mn) SitEO HR mean", "siteo hr mean"]),
      FindHeader(headers, ["(StandEO mn) Mean HR StandEO", "standeo mean hr"]),
      FindHeader(headers, ["Systolic BP SitEO", "sys bp siteo"]),
      FindHeader(headers, ["Sys BP StandEO", "standeo sys bp"]),
      FindHeader(headers, ["Dizziness AUTONOMIC SYMPTOMS", "dizziness autonomic symptoms"]),
      FindHeader(headers, ["Syncope AUTONOMIC SYMPTOMS", "syncope autonomic symptoms"]),
      FindHeader(headers, ["OH AUTONOMIC SYMPTOMS", "oh autonomic symptoms"]))
  }

  /** The required columns that were not found, in the order the error lists them. */
  function MissingRequired(c: Columns): (missing: seq<string>)
    ensures missing == [] <==> c.subject.Some? && c.group.Some?
    ensures "subject_number" in missing <==> c.subject.None?
    ensures "group" in missing <==> c.group.None?
  {
    (if c.subject.None? then ["subject_number"] else []) + (if c.group.None? then ["group"] else [])
  }

  /** The builder stops with an error naming the missing required columns of the located
      columns `c`. */
  function RequireColumns(c: Columns): (r: Result<Columns, seq<string>>)
    ensures r.Success? <==> c.subject.Some? && c.group.Some?
    ensures r.Success? ==> r.value == c
    ensures r.Failure? ==> r.error == MissingRequired(c) && |r.error| > 0
  {
    var missing := MissingRequired(c);
    if missing == [] then Success(c) else Failure(missing)
  }

  /** `r[col]` for a column that may be absent; a missing cell is nil as well. */
  function Cell(record: map<string, string>, col: Option<string>): Option<string> {
    if col.Some? && col.value in record then Some(record[col.value]) else None
  }

  /** `col ? parse_float(r[col]) : nil`. */
  function CellFloat(record: map<string, string>, col: Option<string>): Option<real> {
    match Cell(record, col)
    case Some(text) => Numbers.ParseOptionalFloat(text)
    case None => None
  }

  /** `col ? r[col].to_s.strip : ""`. */
  function CellText(record: map<string, string>, col: Option<string>): string {
    match Cell(record, col)
    case Some(text) => Text.Strip(text)
    case None => ""
  }

  datatype TableRow = TableRow(
    subjectId: string, group: string, age: Option<real>, restingHr: Option<real>, hrvSdnn: Option<real>,
    sitHr: Option<real>, standHr: Option<real>, deltaHr: Option<real>,
    sitSbp: Option<real>, standSbp: Option<real>, deltaSbp: Option<real>,
    dizziness: string, syncope: string, oh: string, target: Label)

  /** The label input of a built row. */
  function InputOf(row: TableRow): LabelInput {
    LabelInput(row.oh, row.syncope, row.dizziness, row.deltaHr, row.deltaSbp, row.restingHr, row.group)
  }

  /** A built row: it has a subject id, and its target is the cascade's label for its own
      readings and answers. */
  predicate Labelled(row: TableRow) {
    row.subjectId != "" && row.group != "" && row.target == PhenotypeFor(InputOf(row))
  }

  /** A record the builder keeps: its subject id and group are not blank after stripping. */
  predicate Builds(record: map<string, string>, c: Columns) {
    CellText(record, c.subject) != "" && CellText(record, c.group) != ""
  }

  /** One source record: skipped when its subject id or group is blank after stripping;
      otherwise its parsed readings, the two deltas, and the label the cascade gives it. */
  function BuildRow(record: map<string, string>, c: Columns): (r: Option<TableRow>)
    ensures r.None? <==> !Builds(record, c)
    ensures r.Some? ==> Labelled(r.value)
    ensures r.Some? ==>
      r.value.deltaHr == Delta(r.value.sitHr, r.value.standHr) && r.value.deltaSbp == Delta(r.value.sitSbp, r.value.standSbp)
  {
    var subjectId := CellText(record, c.subject);
    var group := CellText(record, c.group);
    if subjectId == "" || group == "" then None
    else
      var sitHr, standHr := CellFloat(record, c.sitHr), CellFloat(record, c.standHr);
      var sitSbp, standSbp := CellFloat(record, c.sitSbp), CellFloat(record, c.standSbp);
      var deltaHr, deltaSbp := Delta(sitHr, standHr), Delta(sitSbp, standSbp);
      var restingHr := CellFloat(record, c.restingHr);
      var dizziness, syncope, oh := CellText(record, c.dizziness), CellText(record, c.syncope), CellText(record, c.oh);
      var target := PhenotypeFor(LabelInput(oh, syncope, dizziness, deltaHr, deltaSbp, restingHr, group));
      Some(TableRow(subjectId, group, CellFloat(record, c.age), restingHr, CellFloat(record, c.hrvSdnn),
        sitHr, standHr, deltaHr, sitSbp, standSbp, deltaSbp, dizziness, syncope, oh, target))
  }

  /** How many records the builder skips for a blank subject id or group. */
  function Skipped(records: seq<map<string, string>>, c: Columns): nat {
    if |records| == 0 then 0
    else Skipped(records[..|records| - 1], c) + (if Builds(records[|records| - 1], c) then 0 else 1)
  }

  /** The table: one row per record with a subject id and a group, in input order; the
      skipped records account for the rest. */
  function BuildTable(records: seq<map<string, string>>, c: Columns): (rows: seq<TableRow>)
    ensures |rows| + Skipped(records, c) == |records|
  {
    if |records| == 0 then []
    else
      var n := |records| - 1;
      var init := BuildTable(records[..n], c);
      var built := BuildRow(records[n], c);
      if built.Some? then init + [built.value] else init
  }

  /** When every record has a subject id and a group, none is skipped. */
  lemma {:induction false} NoneSkipped(records: seq<map<string, string>>, c: Columns)
    requires forall i :: 0 <= i < |records| ==> Builds(records[i], c)
    ensures Skipped(records, c) == 0
  {
    if |records| > 0 {
      var n := |records| - 1;
      var init := records[..n];
      forall i | 0 <= i < n ensures Builds(init[i], c) {
        assert init[i] == records[i];
      }
      NoneSkipped(init, c);
    }
  }

  /** When no record is skipped the table has a row for every record. */
  lemma NothingSkipped(records: seq<map<string, string>>, c: Columns)
    requires forall i :: 0 <= i < |records| ==> Builds(records[i], c)
    ensures |BuildTable(records, c)| == |records|
  {
    NoneSkipped(records, c);
  }

  /** Every row of the table has a subject id and a group, and carries the cascade's label
      for its own readings and answers. */
  lemma {:induction false} TableRowsLabelled(records: seq<map<string, string>>, c: Columns)
    ensures forall i :: 0 <= i < |BuildTable(records, c)| ==> Labelled(BuildTable(records, c)[i])
  {
    if |records| > 0 {
      var n := |records| - 1;
      var init := BuildTable(records[..n], c);
      TableRowsLabelled(records[..n], c);
      var rows := BuildTable(records, c);
      forall i | 0 <= i < |rows| ensures Labelled(rows[i]) {
        if i < |init| {
          assert rows[i] == init[i];
        }
      }
    }
  }
}

/**
 The cumulative half of the observer state: totals, histograms, the parity
 gate and the bounded recent lists that one sequenced report is folded into.
 */
module ObserverSummary {
  import opened Wrappers
  import opened Blanks
  import opened Division
  import opened JsonFields
  import opened Tally

  // ----- Values --------------------------------------------------------------

  /** A timestamp field as it arrives in a report: an ISO-8601 UTC instant,
      some other text, or text that is only white space. */
  datatype Stamp = Utc(at: int) | Text(text: string) | Blank

  datatype Verdict =
    | CoverageParity | Divergence | OneSided | NoTraffic
    | Unpaired | NotAssessable | EvidenceIncomplete | OtherVerdict

  datatype Kind = SearchKind | DownloadKind | OtherKind

  datatype Method = ServerMethod | GlobalMethod | KadMethod | AutomaticMethod | NoMethod | OtherMethod

  /** The methods the parity gate counts. */
  datatype Parity = Server | Kad

  /** The three-way classification of a validated report. */
  datatype GateOutcome = GateSuccess | GateRetryable | GateDivergence

  /** A free-text field that is bucketed by its trimmed lower-case form: missing,
      exactly a bucket's own label, that label in other case or with white space
      around it (a blank method is the label of no method), or any other text. */
  datatype Labelled<B> = Absent | Verbatim(bucket: B) | Variant(bucket: B, text: string) | Unlisted(text: string)

  datatype ActionId = ActionId(campaign: string, cycle: nat)

  /** The action identity of a report as it arrives: the text the driver gives a
      cycle, or any other value. */
  datatype ActionName = Named(id: ActionId) | Other(value: Json)

  /** `observed` is the report's own window end or latest client observation;
      `outcome` is its gate classification and `digest` its content hash. */
  datatype Report = Report(
    campaign: string, seqNo: Json, actionId: ActionName, cycle: Json, observed: Option<Stamp>,
    kind: Labelled<Kind>, via: Labelled<Method>, key: Option<string>, title: Option<string>,
    verdict: Labelled<Verdict>, coverageOk: Option<bool>, byteMatch: Option<bool>, diagOk: Option<bool>,
    outcome: GateOutcome, digest: string)

  datatype Compact = Compact(
    seqNo: Json, observed: Stamp, kind: Labelled<Kind>, via: Labelled<Method>, key: Option<string>,
    title: Option<string>, verdict: Labelled<Verdict>, coverageOk: Option<bool>, byteMatch: Option<bool>,
    diagOk: Option<bool>)

  /** One counter per verdict bucket. */
  datatype VerdictCounts = VerdictCounts(
    coverageParity: nat, divergence: nat, oneSided: nat, noTraffic: nat,
    unpaired: nat, notAssessable: nat, evidenceIncomplete: nat, other: nat)
  {
    function Total(): nat {
      coverageParity + divergence + oneSided + noTraffic + unpaired + notAssessable + evidenceIncomplete + other
    }

    function Bump(v: Verdict): VerdictCounts {
      match v
      case CoverageParity => this.(coverageParity := coverageParity + 1)
      case Divergence => this.(divergence := divergence + 1)
      case OneSided => this.(oneSided := oneSided + 1)
      case NoTraffic => this.(noTraffic := noTraffic + 1)
      case Unpaired => this.(unpaired := unpaired + 1)
      case NotAssessable => this.(notAssessable := notAssessable + 1)
      case EvidenceIncomplete => this.(evidenceIncomplete := evidenceIncomplete + 1)
      case OtherVerdict => this.(other := other + 1)
    }
  }

  datatype KindCounts = KindCounts(search: nat, download: nat, other: nat) {
    function Total(): nat {
      search + download + other
    }

    function Bump(k: Kind): KindCounts {
      match k
      case SearchKind => this.(search := search + 1)
      case DownloadKind => this.(download := download + 1)
      case OtherKind => this.(other := other + 1)
    }
  }

  datatype MethodCounts = MethodCounts(server: nat, global: nat, kad: nat, automatic: nat, none: nat, other: nat) {
    function Total(): nat {
      server + global + kad + automatic + none + other
    }

    function Bump(m: Method): MethodCounts {
      match m
      case ServerMethod => this.(server := server + 1)
      case GlobalMethod => this.(global := global + 1)
      case KadMethod => this.(kad := kad + 1)
      case AutomaticMethod => this.(automatic := automatic + 1)
      case NoMethod => this.(none := none + 1)
      case OtherMethod => this.(other := other + 1)
    }
  }

  datatype PerMethod = PerMethod(server: nat, kad: nat) {
    function Get(m: Parity): nat {
      match m case Server => server case Kad => kad
    }

    function Bump(m: Parity): PerMethod {
      match m
      case Server => this.(server := server + 1)
      case Kad => this.(kad := kad + 1)
    }
  }

  datatype GateStatus = Pending | Green | Failed

  datatype Receipt = Receipt(
    seqNo: Json, actionId: ActionName, cycle: Json, via: Parity, observed: Stamp, digest: string)

  datatype Gate = Gate(
    targets: PerMethod, successful: PerMethod, retryable: PerMethod, divergences: nat,
    status: GateStatus, greenAt: Option<Stamp>, receipt: Option<Receipt>)

  datatype Observed = Observed(first: Option<Stamp>, latest: Option<Stamp>)

  datatype Summary = Summary(
    campaign: string, actionLimit: nat, anomalyLimit: nat, observed: Observed,
    nextSeq: nat, actions: nat, verdictTotals: VerdictCounts,
    kinds: KindCounts, methods: MethodCounts, verdicts: VerdictCounts,
    gate: Gate, recentActions: seq<Compact>, recentAnomalies: seq<Compact>)

  // ----- Buckets -------------------------------------------------------------

  function VerdictBucket(value: Labelled<Verdict>): Verdict {
    match value
    case Verbatim(v) => v
    case Variant(v, _) => v
    case _ => OtherVerdict
  }

  function KindBucket(value: Labelled<Kind>): Kind {
    match value
    case Verbatim(k) => k
    case Variant(k, _) => k
    case _ => OtherKind
  }

  function MethodBucket(value: Labelled<Method>): Method {
    match value
    case Absent => NoMethod
    case Verbatim(m) => m
    case Variant(m, _) => m
    case Unlisted(_) => OtherMethod
  }

  /** The gate reads the method verbatim, without the bucket normalization. */
  function ParityOf(via: Labelled<Method>): Option<Parity> {
    if via == Verbatim(ServerMethod) then Some(Server)
    else if via == Verbatim(KadMethod) then Some(Kad)
    else None
  }

  // ----- Validity ------------------------------------------------------------

  predicate TargetsMet(successful: PerMethod, targets: PerMethod) {
    successful.server >= targets.server && successful.kad >= targets.kad
  }

  predicate NonBlank(s: Option<Stamp>) {
    s != Some(Blank)
  }

  /** An action identity that validation accepts: text that is not blank. */
  predicate Identifies(name: ActionName) {
    name.Named? || (name.value.Text? && !BlankId(name.value.s))
  }

  predicate ValidGate(g: Gate) {
    && g.targets.server > 0 && g.targets.kad > 0
    && (g.greenAt.Some? ==> g.greenAt.value.Utc?)
    && match g.status
       case Pending =>
         !TargetsMet(g.successful, g.targets) && g.greenAt.None? && g.divergences == 0 && g.receipt.None?
       case Green =>
         TargetsMet(g.successful, g.targets) && g.greenAt.Some? && g.divergences == 0 && g.receipt.None?
       case Failed =>
         && g.divergences > 0
         && g.receipt.Some?
         && Positive(g.receipt.value.seqNo).Success?
         && Identifies(g.receipt.value.actionId)
         && Positive(g.receipt.value.cycle).Success?
         && g.receipt.value.observed.Utc?
  }

  predicate ValidSummary(s: Summary) {
    && s.actionLimit > 0 && s.anomalyLimit > 0
    && NonBlank(s.observed.first) && NonBlank(s.observed.latest)
    && s.nextSeq > 0 && s.actions == s.nextSeq - 1
    && s.verdictTotals.Total() == s.actions
    && s.kinds.Total() == s.actions
    && s.methods.Total() == s.actions
    && s.verdicts.Total() == s.actions
    && ValidGate(s.gate)
    && |s.recentActions| <= s.actionLimit
    && |s.recentAnomalies| <= s.anomalyLimit
  }

  const NO_VERDICTS := VerdictCounts(0, 0, 0, 0, 0, 0, 0, 0)
  const NO_KINDS := KindCounts(0, 0, 0)
  const NO_METHODS := MethodCounts(0, 0, 0, 0, 0, 0)

  function NewSummary(campaign: string, actionLimit: nat, anomalyLimit: nat, target: nat): Summary {
    Summary(
      campaign, actionLimit, anomalyLimit, Observed(None, None), 1, 0,
      NO_VERDICTS, NO_KINDS, NO_METHODS, NO_VERDICTS, NewGate(target), [], [])
  }

  function NewGate(target: nat): Gate {
    Gate(PerMethod(target, target), PerMethod(0, 0), PerMethod(0, 0), 0, Pending, None, None)
  }

  lemma NewGateValid(target: nat)
    requires target > 0
    ensures ValidGate(NewGate(target))
  {
  }

  lemma NoVerdictsTotal()
    ensures NO_VERDICTS.Total() == 0
  {
  }

  lemma NoKindsTotal()
    ensures NO_KINDS.Total() == 0
  {
  }

  lemma NoMethodsTotal()
    ensures NO_METHODS.Total() == 0
  {
  }

  lemma EmptyValid(s: Summary)
    requires s.actionLimit > 0 && s.anomalyLimit > 0 && s.observed == Observed(None, None) && s.nextSeq == 1
    requires s.actions == 0
    requires s.verdictTotals == NO_VERDICTS && s.kinds == NO_KINDS && s.methods == NO_METHODS
    requires s.verdicts == NO_VERDICTS
    requires ValidGate(s.gate) && |s.recentActions| == 0 && |s.recentAnomalies| == 0
    ensures ValidSummary(s)
  {
    hide ValidGate, VerdictCounts.Total, KindCounts.Total, MethodCounts.Total;
    NoVerdictsTotal();
    NoKindsTotal();
    NoMethodsTotal();
  }

  lemma NewSummaryValid(campaign: string, actionLimit: nat, anomalyLimit: nat, target: nat)
    requires actionLimit > 0 && anomalyLimit > 0 && target > 0
    ensures ValidSummary(NewSummary(campaign, actionLimit, anomalyLimit, target))
  {
    hide ValidSummary, ValidGate, NewGate;
    NewGateValid(target);
    EmptyValid(NewSummary(campaign, actionLimit, anomalyLimit, target));
  }

  lemma NewSummaryZero(campaign: string, actionLimit: nat, anomalyLimit: nat, target: nat)
    ensures
      var s := NewSummary(campaign, actionLimit, anomalyLimit, target);
      s.campaign == campaign && s.actions == 0 && s.nextSeq == 1 && s.gate.targets == PerMethod(target, target)
  {
  }

  // ----- Folding one report --------------------------------------------------

  function Update(o: Observed, at: Stamp): Observed {
    Observed(if o.first.None? then Some(at) else o.first, Some(at))
  }

  function CompactOf(r: Report, at: Stamp): Compact {
    Compact(r.seqNo, at, r.kind, r.via, r.key, r.title, r.verdict, r.coverageOk, r.byteMatch, r.diagOk)
  }

  function ReceiptOf(r: Report, m: Parity, at: Stamp): Receipt {
    Receipt(r.seqNo, r.actionId, r.cycle, m, at, r.digest)
  }

  function FoldGate(g: Gate, r: Report, at: Stamp): Gate {
    var parity := ParityOf(r.via);
    if parity.None? then g
    else match r.outcome
      case GateSuccess =>
        var successful := g.successful.Bump(parity.value);
        if g.status == Pending && TargetsMet(successful, g.targets)
        then g.(successful := successful, status := Green, greenAt := Some(at))
        else g.(successful := successful)
      case GateDivergence =>
        g.(divergences := g.divergences + 1,
           receipt := if g.receipt.None? then Some(ReceiptOf(r, parity.value, at)) else g.receipt,
           status := Failed)
      case GateRetryable =>
        g.(retryable := g.retryable.Bump(parity.value))
  }

  /** The fold writes the first divergence receipt. */
  predicate WritesReceipt(g: Gate, r: Report) {
    g.receipt.None? && r.outcome == GateDivergence && ParityOf(r.via).Some?
  }

  /** The report has the fields a receipt copies. */
  predicate Keyed(r: Report) {
    r.actionId != Other(Missing) && !r.cycle.Missing?
  }

  /** The summary after one accepted report. */
  function Folded(s: Summary, r: Report): Summary
    requires r.observed.Some?
  {
    var at := r.observed.value;
    var verdict := VerdictBucket(r.verdict);
    var compact := CompactOf(r, at);
    s.(
      observed := Update(s.observed, at),
      actions := s.actions + 1,
      verdictTotals := s.verdictTotals.Bump(verdict),
      verdicts := s.verdicts.Bump(verdict),
      kinds := s.kinds.Bump(KindBucket(r.kind)),
      methods := s.methods.Bump(MethodBucket(r.via)),
      nextSeq := s.nextSeq + 1,
      gate := FoldGate(s.gate, r, at),
      recentActions := LastN(s.recentActions + [compact], s.actionLimit),
      recentAnomalies :=
        if verdict == CoverageParity then s.recentAnomalies
        else LastN(s.recentAnomalies + [compact], s.anomalyLimit))
  }

  function FoldReport(s: Summary, r: Report): Result<Summary> {
    if r.campaign != s.campaign then Failure("campaign identity")
    else if !EqualsNumber(r.seqNo, s.nextSeq) then Failure("action sequence is discontinuous")
    else if r.observed.None? then Failure("observed time")
    else if WritesReceipt(s.gate, r) && !Keyed(r) then Failure("KeyError")
    else Success(Folded(s, r))
  }

  // ----- What one fold keeps -------------------------------------------------

  /** The fold turns the gate green. */
  predicate TurnsGreen(g: Gate, r: Report) {
    && g.status == Pending
    && r.outcome == GateSuccess
    && ParityOf(r.via).Some?
    && TargetsMet(g.successful.Bump(ParityOf(r.via).value), g.targets)
  }

  /** A report whose fold needs no second validation: its observed time is not
      blank, and is a UTC instant whenever the gate records it; a report whose
      divergence is recorded has a positive integer for its sequence number and
      its cycle, and an action identity that is not blank. */
  predicate Storable(g: Gate, r: Report) {
    && r.observed.Some?
    && r.observed.value != Blank
    && (TurnsGreen(g, r) || WritesReceipt(g, r) ==> r.observed.value.Utc?)
    && (WritesReceipt(g, r) ==> Receivable(r))
  }

  predicate Receivable(r: Report) {
    Positive(r.seqNo).Success? && Identifies(r.actionId) && Positive(r.cycle).Success?
  }

  lemma FoldGateValid(g: Gate, r: Report)
    requires ValidGate(g) && r.observed.Some?
    ensures ValidGate(FoldGate(g, r, r.observed.value)) <==>
      && (TurnsGreen(g, r) || WritesReceipt(g, r) ==> r.observed.value.Utc?)
      && (WritesReceipt(g, r) ==> Receivable(r))
  {
    hide Identifies, Positive;
  }

  /** Folding an accepted report keeps the summary valid exactly when the report
      is storable; the fold itself does not check this. */
  lemma FoldKeepsValid(s: Summary, r: Report)
    requires ValidSummary(s) && FoldReport(s, r).Success?
    ensures ValidSummary(FoldReport(s, r).value) <==> Storable(s.gate, r)
  {
    hide Identifies, Positive, FoldGate, ValidGate;
    FoldGateValid(s.gate, r);
  }

  // ----- The history a summary stands for ------------------------------------

  /** The field is the bucket's label, in whatever case and spacing. */
  predicate Says<B(==)>(value: Labelled<B>, b: B) {
    (value.Verbatim? || value.Variant?) && value.bucket == b
  }

  /** The field is no label of a bucket. */
  predicate SaysNothing<B>(value: Labelled<B>) {
    value.Absent? || value.Unlisted?
  }

  function HasVerdict(v: Verdict): Report -> bool {
    (r: Report) => Says(r.verdict, v) || (v == OtherVerdict && SaysNothing(r.verdict))
  }

  function HasKind(k: Kind): Report -> bool {
    (r: Report) => Says(r.kind, k) || (k == OtherKind && SaysNothing(r.kind))
  }

  /** A missing method is no method; text that names none is another one. */
  function HasMethod(m: Method): Report -> bool {
    (r: Report) => Says(r.via, m) || (m == NoMethod && r.via.Absent?) || (m == OtherMethod && r.via.Unlisted?)
  }

  function LabelOf(m: Parity): Labelled<Method> {
    match m case Server => Verbatim(ServerMethod) case Kad => Verbatim(KadMethod)
  }

  function Counts(m: Parity, outcome: GateOutcome): Report -> bool {
    (r: Report) => r.via == LabelOf(m) && r.outcome == outcome
  }

  function Diverges(): Report -> bool {
    (r: Report) => r.outcome == GateDivergence && (r.via == LabelOf(Server) || r.via == LabelOf(Kad))
  }

  function Tallies(rs: seq<Report>, outcome: GateOutcome): PerMethod {
    PerMethod(Count(rs, Counts(Server, outcome)), Count(rs, Counts(Kad, outcome)))
  }

  function VerdictTally(rs: seq<Report>): VerdictCounts {
    VerdictCounts(
      Count(rs, HasVerdict(CoverageParity)), Count(rs, HasVerdict(Divergence)),
      Count(rs, HasVerdict(OneSided)), Count(rs, HasVerdict(NoTraffic)),
      Count(rs, HasVerdict(Unpaired)), Count(rs, HasVerdict(NotAssessable)),
      Count(rs, HasVerdict(EvidenceIncomplete)), Count(rs, HasVerdict(OtherVerdict)))
  }

  function KindTally(rs: seq<Report>): KindCounts {
    KindCounts(Count(rs, HasKind(SearchKind)), Count(rs, HasKind(DownloadKind)), Count(rs, HasKind(OtherKind)))
  }

  function MethodTally(rs: seq<Report>): MethodCounts {
    MethodCounts(
      Count(rs, HasMethod(ServerMethod)), Count(rs, HasMethod(GlobalMethod)), Count(rs, HasMethod(KadMethod)),
      Count(rs, HasMethod(AutomaticMethod)), Count(rs, HasMethod(NoMethod)), Count(rs, HasMethod(OtherMethod)))
  }

  function StampOf(r: Report): Stamp {
    if r.observed.Some? then r.observed.value else Blank
  }

  /** A recent entry keeps ten fields of its report. */
  predicate Condenses(c: Compact, r: Report) {
    && c.seqNo == r.seqNo && Some(c.observed) == r.observed && c.kind == r.kind && c.via == r.via && c.key == r.key
    && c.title == r.title && c.verdict == r.verdict && c.coverageOk == r.coverageOk && c.byteMatch == r.byteMatch
    && c.diagOk == r.diagOk
  }

  function Compacts(rs: seq<Report>): seq<Compact> {
    seq(|rs|, i requires 0 <= i < |rs| => CompactOf(rs[i], StampOf(rs[i])))
  }

  function Anomalies(rs: seq<Report>): seq<Report> {
    if |rs| == 0 then []
    else
      var front, last := rs[..|rs| - 1], rs[|rs| - 1];
      if Says(last.verdict, CoverageParity) then Anomalies(front) else Anomalies(front) + [last]
  }

  /** Every method has succeeded as often as it must. */
  predicate Enough(rs: seq<Report>, targets: PerMethod) {
    forall m: Parity :: Count(rs, Counts(m, GateSuccess)) >= targets.Get(m)
  }

  predicate GreenPrefix(rs: seq<Report>, targets: PerMethod, n: nat) {
    n <= |rs| && Enough(rs[..n], targets) && Count(rs[..n], Diverges()) == 0
  }

  /** The observed time at which the targets were first met, when no divergence
      had been confirmed by then. */
  function GreenAt(rs: seq<Report>, targets: PerMethod): Option<Stamp> {
    if |rs| == 0 then None
    else
      var earlier := GreenAt(rs[..|rs| - 1], targets);
      if earlier.Some? then earlier
      else if GreenPrefix(rs, targets, |rs|) then Some(StampOf(rs[|rs| - 1]))
      else None
  }

  function FirstDivergence(rs: seq<Report>): Option<Receipt> {
    if |rs| == 0 then None
    else
      var earlier, last := FirstDivergence(rs[..|rs| - 1]), rs[|rs| - 1];
      if earlier.Some? then earlier
      else if Diverges()(last) then
        Some(Receipt(last.seqNo, last.actionId, last.cycle, if last.via == LabelOf(Kad) then Kad else Server,
                     StampOf(last), last.digest))
      else None
  }

  function StatusOf(rs: seq<Report>, targets: PerMethod): GateStatus {
    if Count(rs, Diverges()) > 0 then Failed
    else if Enough(rs, targets) then Green
    else Pending
  }

  function GateOf(targets: PerMethod, rs: seq<Report>): Gate {
    Gate(targets, Tallies(rs, GateSuccess), Tallies(rs, GateRetryable), Count(rs, Diverges()),
         StatusOf(rs, targets), GreenAt(rs, targets), FirstDivergence(rs))
  }

  /** The whole summary, computed from the report history alone. */
  function SummaryOf(campaign: string, actionLimit: nat, anomalyLimit: nat, target: nat, rs: seq<Report>): Summary {
    var targets := PerMethod(target, target);
    Summary(
      campaign, actionLimit, anomalyLimit,
      if |rs| == 0 then Observed(None, None) else Observed(Some(StampOf(rs[0])), Some(StampOf(rs[|rs| - 1]))),
      |rs| + 1, |rs|,
      VerdictTally(rs), KindTally(rs), MethodTally(rs), VerdictTally(rs),
      GateOf(targets, rs),
      LastN(Compacts(rs), actionLimit),
      LastN(Compacts(Anomalies(rs)), anomalyLimit))
  }

  /** The number, as an integer, as a whole float, or, of one, as `true`. */
  predicate Denotes(v: Json, n: nat)
    requires n > 0
  {
    v == Num(n) || v == Json.Real(n as real) || (n == 1 && v == Bool(true))
  }

  /** A report that a summary of `n` reports folds, given the first divergence so far. */
  predicate Follows(campaign: string, n: nat, divergence: Option<Receipt>, r: Report) {
    && r.campaign == campaign && Denotes(r.seqNo, n + 1) && r.observed.Some?
    && (divergence.None? && Diverges()(r) ==> !r.cycle.Missing? && r.actionId != Other(Missing))
  }

  predicate Acceptable(campaign: string, rs: seq<Report>) {
    forall i :: 0 <= i < |rs| ==> Follows(campaign, i, FirstDivergence(rs[..i]), rs[i])
  }

  function FoldAll(s: Summary, rs: seq<Report>): Result<Summary> {
    if |rs| == 0 then Success(s)
    else
      var front :- FoldAll(s, rs[..|rs| - 1]);
      FoldReport(front, rs[|rs| - 1])
  }

  lemma TalliesStep(rs: seq<Report>, r: Report, o: GateOutcome)
    ensures Tallies(rs + [r], o)
         == if r.outcome == o && ParityOf(r.via).Some? then Tallies(rs, o).Bump(ParityOf(r.via).value)
           else Tallies(rs, o)
  {
    CountAppend(rs, r, Counts(Server, o));
    CountAppend(rs, r, Counts(Kad, o));
  }

  lemma GateStep(targets: PerMethod, rs: seq<Report>, r: Report)
    requires targets.server > 0 && targets.kad > 0 && r.observed.Some?
    ensures FoldGate(GateOf(targets, rs), r, r.observed.value) == GateOf(targets, rs + [r])
  {
    var all := rs + [r];
    assert all[..|rs|] == rs && all[..|all|] == all && rs[..|rs|] == rs;
    CountAppend(rs, r, Diverges());
    TalliesStep(rs, r, GateSuccess);
    TalliesStep(rs, r, GateRetryable);
    GreenAtSome(rs, targets);
    FirstDivergenceSome(rs);
  }

  /** A green time is recorded exactly when some divergence-free prefix met the targets. */
  lemma {:induction false} GreenAtSome(rs: seq<Report>, targets: PerMethod)
    requires targets.server > 0 && targets.kad > 0
    ensures GreenAt(rs, targets).Some? <==> exists n: nat :: GreenPrefix(rs, targets, n)
    ensures Count(rs, Diverges()) == 0 ==> (GreenAt(rs, targets).Some? <==> GreenPrefix(rs, targets, |rs|))
  {
    assert rs[..|rs|] == rs;
    if |rs| == 0 {
      assert forall n: nat :: n <= |rs| ==> rs[..n] == rs;
      assert Count(rs, Counts(Server, GateSuccess)) < targets.Get(Server);
    } else {
      var front := rs[..|rs| - 1];
      GreenAtSome(front, targets);
      assert front[..|front|] == front;
      assert rs == front + [rs[|rs| - 1]];
      CountAppend(front, rs[|rs| - 1], Diverges());
      CountAppend(front, rs[|rs| - 1], Counts(Server, GateSuccess));
      CountAppend(front, rs[|rs| - 1], Counts(Kad, GateSuccess));
      forall n: nat
        ensures n < |rs| ==> (GreenPrefix(rs, targets, n) <==> GreenPrefix(front, targets, n))
      {
        if n < |rs| {
          assert rs[..n] == front[..n];
        }
      }
      if GreenAt(front, targets).Some? {
        var n: nat :| GreenPrefix(front, targets, n);
        assert GreenPrefix(rs, targets, n);
      }
    }
  }

  lemma {:induction false} FirstDivergenceSome(rs: seq<Report>)
    ensures FirstDivergence(rs).Some? <==> Count(rs, Diverges()) > 0
  {
    if |rs| > 0 {
      FirstDivergenceSome(rs[..|rs| - 1]);
    }
  }

  lemma CompactsAppend(rs: seq<Report>, r: Report)
    ensures Compacts(rs + [r]) == Compacts(rs) + [CompactOf(r, StampOf(r))]
  {
  }

  lemma VerdictStep(rs: seq<Report>, r: Report)
    ensures VerdictTally(rs).Bump(VerdictBucket(r.verdict)) == VerdictTally(rs + [r])
  {
    CountAppend(rs, r, HasVerdict(CoverageParity));
    CountAppend(rs, r, HasVerdict(Divergence));
    CountAppend(rs, r, HasVerdict(OneSided));
    CountAppend(rs, r, HasVerdict(NoTraffic));
    CountAppend(rs, r, HasVerdict(Unpaired));
    CountAppend(rs, r, HasVerdict(NotAssessable));
    CountAppend(rs, r, HasVerdict(EvidenceIncomplete));
    CountAppend(rs, r, HasVerdict(OtherVerdict));
  }

  lemma KindStep(rs: seq<Report>, r: Report)
    ensures KindTally(rs).Bump(KindBucket(r.kind)) == KindTally(rs + [r])
  {
    CountAppend(rs, r, HasKind(SearchKind));
    CountAppend(rs, r, HasKind(DownloadKind));
    CountAppend(rs, r, HasKind(OtherKind));
  }

  lemma MethodStep(rs: seq<Report>, r: Report)
    ensures MethodTally(rs).Bump(MethodBucket(r.via)) == MethodTally(rs + [r])
  {
    CountAppend(rs, r, HasMethod(ServerMethod));
    CountAppend(rs, r, HasMethod(GlobalMethod));
    CountAppend(rs, r, HasMethod(KadMethod));
    CountAppend(rs, r, HasMethod(AutomaticMethod));
    CountAppend(rs, r, HasMethod(NoMethod));
    CountAppend(rs, r, HasMethod(OtherMethod));
  }

  lemma FoldStep(campaign: string, actionLimit: nat, anomalyLimit: nat, target: nat, rs: seq<Report>, r: Report)
    requires actionLimit > 0 && anomalyLimit > 0 && target > 0
    requires Follows(campaign, |rs|, FirstDivergence(rs), r)
    ensures FoldReport(SummaryOf(campaign, actionLimit, anomalyLimit, target, rs), r)
         == Success(SummaryOf(campaign, actionLimit, anomalyLimit, target, rs + [r]))
  {
    hide Folded, Follows, Keyed, EqualsNumber, SummaryOf;
    HistoryAccepts(campaign, actionLimit, anomalyLimit, target, rs, r);
    FoldedStep(campaign, actionLimit, anomalyLimit, target, rs, r);
  }

  lemma FoldedStep(campaign: string, actionLimit: nat, anomalyLimit: nat, target: nat, rs: seq<Report>, r: Report)
    requires actionLimit > 0 && anomalyLimit > 0 && target > 0 && r.observed.Some?
    ensures Folded(SummaryOf(campaign, actionLimit, anomalyLimit, target, rs), r)
         == SummaryOf(campaign, actionLimit, anomalyLimit, target, rs + [r])
  {
    hide FoldGate, GateOf, VerdictTally, KindTally, MethodTally, KindBucket, MethodBucket, Compacts, CompactOf, LastN;
    var all := rs + [r];
    assert all[..|rs|] == rs;
    VerdictStep(rs, r);
    KindStep(rs, r);
    MethodStep(rs, r);
    GateStep(PerMethod(target, target), rs, r);
    CompactsAppend(rs, r);
    LastNAppend(Compacts(rs), CompactOf(r, StampOf(r)), actionLimit);
    if VerdictBucket(r.verdict) != CoverageParity {
      CompactsAppend(Anomalies(rs), r);
      LastNAppend(Compacts(Anomalies(rs)), CompactOf(r, StampOf(r)), anomalyLimit);
    }
  }

  lemma EmptyHistory(campaign: string, actionLimit: nat, anomalyLimit: nat, target: nat)
    requires target > 0
    ensures NewSummary(campaign, actionLimit, anomalyLimit, target)
         == SummaryOf(campaign, actionLimit, anomalyLimit, target, [])
  {
    assert Compacts([]) == [] && Anomalies([]) == [];
    assert LastN<Compact>([], actionLimit) == [] && LastN<Compact>([], anomalyLimit) == [];
  }

  lemma FoldAccepts(s: Summary, r: Report)
    ensures FoldReport(s, r).Success? <==>
      && r.campaign == s.campaign && EqualsNumber(r.seqNo, s.nextSeq) && r.observed.Some?
      && (WritesReceipt(s.gate, r) ==> Keyed(r))
  {
  }

  lemma AcceptableEmpty(campaign: string)
    ensures Acceptable(campaign, [])
  {
  }

  lemma AcceptableAppend(campaign: string, rs: seq<Report>, r: Report)
    ensures Acceptable(campaign, rs + [r]) <==>
      Acceptable(campaign, rs) && Follows(campaign, |rs|, FirstDivergence(rs), r)
  {
    hide Follows, FirstDivergence;
    var all := rs + [r];
    assert all[|rs|] == r && all[..|rs|] == rs;
    assert forall i :: 0 <= i < |rs| ==> all[i] == rs[i] && all[..i] == rs[..i];
  }

  lemma DenotesExactly(v: Json, n: nat)
    requires n > 0
    ensures EqualsNumber(v, n) <==> Denotes(v, n)
  {
  }

  lemma HistoryAccepts(
    campaign: string, actionLimit: nat, anomalyLimit: nat, target: nat, rs: seq<Report>, r: Report)
    ensures FoldReport(SummaryOf(campaign, actionLimit, anomalyLimit, target, rs), r).Success? <==>
      Follows(campaign, |rs|, FirstDivergence(rs), r)
  {
    hide FoldReport, EqualsNumber, Denotes, FirstDivergence, GreenAt, StatusOf, Tallies, VerdictTally, KindTally;
    hide MethodTally, Compacts, Anomalies;
    FoldAccepts(SummaryOf(campaign, actionLimit, anomalyLimit, target, rs), r);
    DenotesExactly(r.seqNo, |rs| + 1);
  }

  /** The bounded fold of any report sequence succeeds exactly when the sequence
      is contiguous, and then equals the summary read off the full history. */
  lemma {:induction false} FoldRefinesHistory(
    campaign: string, actionLimit: nat, anomalyLimit: nat, target: nat, rs: seq<Report>)
    requires actionLimit > 0 && anomalyLimit > 0 && target > 0
    ensures FoldAll(NewSummary(campaign, actionLimit, anomalyLimit, target), rs).Success? <==> Acceptable(campaign, rs)
    ensures Acceptable(campaign, rs) ==>
      FoldAll(NewSummary(campaign, actionLimit, anomalyLimit, target), rs)
      == Success(SummaryOf(campaign, actionLimit, anomalyLimit, target, rs))
  {
    if |rs| == 0 {
      EmptyHistory(campaign, actionLimit, anomalyLimit, target);
      assert rs == [];
      assert Acceptable(campaign, []) by {
        AcceptableEmpty(campaign);
      }
    } else {
      var front, last := rs[..|rs| - 1], rs[|rs| - 1];
      assert rs == front + [last];
      FoldRefinesHistory(campaign, actionLimit, anomalyLimit, target, front);
      AcceptableAppend(campaign, front, last);
      if Acceptable(campaign, front) {
        HistoryAccepts(campaign, actionLimit, anomalyLimit, target, front, last);
        if Acceptable(campaign, rs) {
          FoldStep(campaign, actionLimit, anomalyLimit, target, front, last);
        }
      }
    }
  }

  lemma {:induction false} CountMonotone(rs: seq<Report>, more: seq<Report>, p: Report -> bool)
    ensures Count(rs, p) <= Count(rs + more, p)
  {
    if |more| == 0 {
      assert rs + more == rs;
    } else {
      var front := more[..|more| - 1];
      CountMonotone(rs, front, p);
      assert (rs + more)[..|rs + more| - 1] == rs + front;
    }
  }

  lemma {:induction false} FirstDivergenceStable(rs: seq<Report>, more: seq<Report>)
    requires FirstDivergence(rs).Some?
    ensures FirstDivergence(rs + more) == FirstDivergence(rs)
  {
    if |more| == 0 {
      assert rs + more == rs;
    } else {
      FirstDivergenceStable(rs, more[..|more| - 1]);
      assert (rs + more)[..|rs + more| - 1] == rs + more[..|more| - 1];
    }
  }

  /** A failed gate stays failed under any further reports and keeps its first receipt. */
  lemma FailedIsAbsorbing(targets: PerMethod, rs: seq<Report>, more: seq<Report>)
    requires StatusOf(rs, targets) == Failed
    ensures StatusOf(rs + more, targets) == Failed
    ensures FirstDivergence(rs + more) == FirstDivergence(rs)
  {
    CountMonotone(rs, more, Diverges());
    FirstDivergenceSome(rs);
    FirstDivergenceStable(rs, more);
  }

  /** The receipt names the earliest diverging report of the history. */
  lemma {:induction false} ReceiptNamesFirst(rs: seq<Report>, i: nat)
    requires i < |rs| && Diverges()(rs[i])
    requires forall j :: 0 <= j < i ==> !Diverges()(rs[j])
    ensures FirstDivergence(rs).Some?
    ensures
      var receipt := FirstDivergence(rs).value;
      && receipt.seqNo == rs[i].seqNo && receipt.actionId == rs[i].actionId && receipt.cycle == rs[i].cycle
      && LabelOf(receipt.via) == rs[i].via && receipt.digest == rs[i].digest
      && receipt.observed == (if rs[i].observed.Some? then rs[i].observed.value else Blank)
  {
    if i == |rs| - 1 {
      CountZero(rs[..i], Diverges());
      FirstDivergenceSome(rs[..i]);
    } else {
      ReceiptNamesFirst(rs[..|rs| - 1], i);
    }
  }

  lemma {:induction false} AnomaliesAre(rs: seq<Report>)
    ensures |Anomalies(rs)| <= |rs|
    ensures forall i :: 0 <= i < |Anomalies(rs)| ==>
      Anomalies(rs)[i] in rs && !Says(Anomalies(rs)[i].verdict, CoverageParity)
    ensures |Anomalies(rs)| == |rs| - Count(rs, HasVerdict(CoverageParity))
  {
    if |rs| > 0 {
      AnomaliesAre(rs[..|rs| - 1]);
    }
  }

  /** The entries condense the last of the reports in order, as many as there are up to the limit. */
  predicate TailOf(cs: seq<Compact>, rs: seq<Report>, limit: nat) {
    && |cs| == Least(|rs|, limit)
    && forall i :: 0 <= i < |cs| ==> Condenses(cs[i], rs[|rs| - |cs| + i])
  }

  lemma TailCondenses(rs: seq<Report>, limit: nat)
    requires forall r :: r in rs ==> r.observed.Some?
    ensures TailOf(LastN(Compacts(rs), limit), rs, limit)
  {
    var all, cs := Compacts(rs), LastN(Compacts(rs), limit);
    forall i | 0 <= i < |cs|
      ensures Condenses(cs[i], rs[|rs| - |cs| + i])
    {
      assert cs[i] == all[|rs| - |cs| + i];
      assert rs[|rs| - |cs| + i] in rs;
    }
  }

  /** The recent lists condense the last reports, and the last that are no parity. */
  lemma RecentAreTheLast(campaign: string, actionLimit: nat, anomalyLimit: nat, target: nat, rs: seq<Report>)
    requires Acceptable(campaign, rs)
    ensures
      var s := SummaryOf(campaign, actionLimit, anomalyLimit, target, rs);
      TailOf(s.recentActions, rs, actionLimit) && TailOf(s.recentAnomalies, Anomalies(rs), anomalyLimit)
  {
    hide Acceptable, Anomalies, TailOf, Compacts, LastN, GateOf, VerdictTally, KindTally, MethodTally;
    AnomaliesAre(rs);
    ObservedAll(campaign, rs);
    TailCondenses(rs, actionLimit);
    TailCondenses(Anomalies(rs), anomalyLimit);
  }

  lemma ObservedAll(campaign: string, rs: seq<Report>)
    requires Acceptable(campaign, rs)
    ensures forall r :: r in rs ==> r.observed.Some?
  {
    forall i | 0 <= i < |rs|
      ensures rs[i].observed.Some?
    {
      assert Follows(campaign, i, FirstDivergence(rs[..i]), rs[i]);
    }
  }

  // ----- Reports that validation would have refused --------------------------

  function SampleReport(campaign: string, seqNo: Json, name: ActionName, at: Stamp, outcome: GateOutcome): Report {
    Report(campaign, seqNo, name, Num(1), Some(at), Verbatim(SearchKind), Verbatim(ServerMethod), None, None,
           Verbatim(CoverageParity), None, None, None, outcome, "")
  }

  /** First reports that `FoldReport` accepts and that leave an invalid summary:
      one with a blank window end, and divergences whose window end is not a UTC
      instant, whose action identity is blank, or whose sequence number is `true`. */
  predicate Breaks(campaign: string, r: Report) {
    var name := Named(ActionId(campaign, 1));
    || r == SampleReport(campaign, Num(1), name, Blank, GateRetryable)
    || r == SampleReport(campaign, Num(1), name, Stamp.Text("soon"), GateDivergence)
    || r == SampleReport(campaign, Num(1), Other(Json.Text(" ")), Utc(0), GateDivergence)
    || r == SampleReport(campaign, Bool(true), name, Utc(0), GateDivergence)
  }

  lemma UncheckedFoldBreaksValidity(s: Summary, r: Report)
    requires s == NewSummary(s.campaign, 1, 1, 1) && Breaks(s.campaign, r)
    ensures ValidSummary(s) && FoldReport(s, r).Success? && !ValidSummary(FoldReport(s, r).value)
  {
    hide FoldReport, ValidSummary, FoldGate;
    NewSummaryValid(s.campaign, 1, 1, 1);
    FoldAccepts(s, r);
    FoldKeepsValid(s, r);
  }

  // ----- The fold as the original runs it: in place ---------------------------

  /** The cumulative dictionaries that folding updates in place. */
  class CumulativeSummary {
    const campaign: string
    const actionLimit: nat
    const anomalyLimit: nat
    var observed: Observed
    var nextSeq: nat
    var actions: nat
    var verdictTotals: VerdictCounts
    var kinds: KindCounts
    var methods: MethodCounts
    var verdicts: VerdictCounts
    var gate: Gate
    var recentActions: seq<Compact>
    var recentAnomalies: seq<Compact>

    function Value(): Summary
      reads this
    {
      Summary(campaign, actionLimit, anomalyLimit, observed, nextSeq, actions, verdictTotals, kinds, methods,
              verdicts, gate, recentActions, recentAnomalies)
    }

    constructor (s: Summary)
      ensures Value() == s
    {
      campaign, actionLimit, anomalyLimit := s.campaign, s.actionLimit, s.anomalyLimit;
      observed, nextSeq, actions := s.observed, s.nextSeq, s.actions;
      verdictTotals, kinds, methods, verdicts := s.verdictTotals, s.kinds, s.methods, s.verdicts;
      gate := s.gate;
      recentActions, recentAnomalies := s.recentActions, s.recentAnomalies;
    }

    method UpdateObserved(at: Stamp)
      modifies this`observed
      ensures observed == Update(old(observed), at)
    {
      if observed.first.None? {
        observed := observed.(first := Some(at));
      }
      observed := observed.(latest := Some(at));
    }

    static method AppendBounded(items: seq<Compact>, item: Compact, limit: nat) returns (kept: seq<Compact>)
      requires limit > 0
      ensures kept == LastN(items + [item], limit)
      ensures |kept| <= limit && |kept| > 0 && kept[|kept| - 1] == item
    {
      kept := items + [item];
      if |kept| > limit {
        kept := kept[|kept| - limit..];
      }
    }

    method FoldParityGate(r: Report, at: Stamp)
      modifies this`gate
      ensures gate == FoldGate(old(gate), r, at)
    {
      var parity := ParityOf(r.via);
      if parity.None? {
        return;
      }
      if r.outcome == GateSuccess {
        gate := gate.(successful := gate.successful.Bump(parity.value));
        if gate.status == Pending && TargetsMet(gate.successful, gate.targets) {
          gate := gate.(status := Green);
          gate := gate.(greenAt := Some(at));
        }
        return;
      }
      if r.outcome == GateDivergence {
        gate := gate.(divergences := gate.divergences + 1);
        if gate.receipt.None? {
          gate := gate.(receipt := Some(ReceiptOf(r, parity.value, at)));
        }
        gate := gate.(status := Failed);
        return;
      }
      gate := gate.(retryable := gate.retryable.Bump(parity.value));
    }

    /** A refused report leaves every counter as it was. */
    method FoldActionReport(r: Report) returns (ok: bool)
      requires actionLimit > 0 && anomalyLimit > 0
      modifies this
      ensures ok == FoldReport(old(Value()), r).Success?
      ensures Value() == if ok then FoldReport(old(Value()), r).value else old(Value())
    {
      hide Folded, EqualsNumber, Keyed, WritesReceipt;
      if r.campaign != campaign || !EqualsNumber(r.seqNo, nextSeq) || r.observed.None?
         || (WritesReceipt(gate, r) && !Keyed(r)) {
        return false;
      }
      CountReport(r);
      ok := true;
    }

    /** Adds one accepted report to every counter and bounded list. */
    method CountReport(r: Report)
      requires actionLimit > 0 && anomalyLimit > 0 && r.observed.Some?
      modifies this
      ensures Value() == Folded(old(Value()), r)
    {
      hide VerdictBucket, KindBucket, MethodBucket, FoldGate, LastN, CompactOf;
      hide VerdictCounts.Bump, KindCounts.Bump, MethodCounts.Bump;
      var at := r.observed.value;
      UpdateObserved(at);
      var verdict := VerdictBucket(r.verdict);
      actions := actions + 1;
      verdictTotals := verdictTotals.Bump(verdict);
      verdicts := verdicts.Bump(verdict);
      kinds := kinds.Bump(KindBucket(r.kind));
      methods := methods.Bump(MethodBucket(r.via));
      nextSeq := nextSeq + 1;
      FoldParityGate(r, at);
      var compact := CompactOf(r, at);
      recentActions := AppendBounded(recentActions, compact, actionLimit);
      if verdict != CoverageParity {
        recentAnomalies := AppendBounded(recentAnomalies, compact, anomalyLimit);
      }
    }
  }
}

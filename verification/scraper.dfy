/**
 * The per-project decision pipeline of the geldvoorelkaar.nl scraper: for
 * each project block of the listing page, in document order, read the
 * project id from the detail link, skip ids already in the `projects` store,
 * reject a high default probability, reject a low adjusted yield, and
 * otherwise record the project, write the store and send one notification.
 */
module Scraper {
  import opened Optional
  import opened JsString
  import opened JsNumber
  import opened Decimal

  /** One `.projectInfo` block: the `href` of its `.button` link and the
      trimmed text (`text().trim()`) of each labelled element. A label the
      block lacks reads as the empty string, as an empty selection's `text()`
      does. */
  datatype Block = Block(
    link: string,
    classification: string,
    rating: string,
    interest: string,
    title: string,
    credit: string,
    duration: string)

  /** An accepted project, as kept in `projects` and written to results.json.
      The labels are kept as text; `months` is the digit run of the duration
      label, a string as in the source. */
  datatype Project = Project(
    id: string,
    title: string,
    classification: string,
    rating: string,
    interest: Number,
    credit: string,
    adjusted: Number,
    months: string)

  /** The `projects` object: project id to accepted project. */
  type Store = map<string, Project>

  /** Where the source throws: `null[0]` after a `match` that found no digit. */
  datatype Failure = NoProjectId | NoTermMonths

  datatype Outcome =
    | Known
    | HighRisk
    | LowYield
    | Accepted(project: Project)
    | Failed(failure: Failure)

  datatype StepResult = StepResult(store: Store, outcome: Outcome)

  /** A Graydon default probability above this is too risky. */
  const MaxRating: real := 2.0
  /** A CreditSafe score below this is too risky. */
  const MinCredit: real := 50.0
  /** The two amounts subtracted from the interest, in this order. */
  const FirstCost: real := 0.9
  const SecondCost: real := 2.0
  /** The least adjusted yield worth notifying. */
  const MinAdjusted: real := 2.5
  /** The interest at which the adjusted yield reaches `MinAdjusted`. */
  const MinInterest: real := 5.4

  /** `link.match(/\d+/)[0]`, or `None` where that throws. */
  function ProjectId(b: Block): Option<string> {
    MatchDigits(b.link)
  }

  /** `parseFloat(text.slice(0, -1).replace(',', '.'))`: drop the
      trailing `%`, turn the decimal comma into a point, read a number. */
  function Interest(b: Block): Number {
    ParseFloat(ReplaceFirst(DropLast(b.interest), ',', '.'))
  }

  /** `+(rating.replace(',', '.'))` */
  function Rating(b: Block): Number {
    ToNumber(ReplaceFirst(b.rating, ',', '.'))
  }

  /** `+credit` */
  function Credit(b: Block): Number {
    ToNumber(b.credit)
  }

  /** `interest - 0.9 - 2.0` */
  function Adjusted(interest: Number): Number {
    Sub(Sub(interest, FirstCost), SecondCost)
  }

  /** `Math.round(x * 100) / 100`: the multiple of 0.01 nearest to `x`,
      halves rounded up. */
  function Cents(x: Number): (r: Number)
    ensures r.NaN? <==> x.NaN?
    ensures r.Finite? ==> IsInteger(r.value * 100.0)
                          && x.value - 0.005 < r.value <= x.value + 0.005
  {
    match Round(Mul(x, 100.0))
    case NaN => NaN
    case Finite(k) => Finite(k / 100.0)
  }

  /** The values the callback reads off a block: the project id, the two
      risk figures, the interest, and the digits of the duration label. */
  datatype Fields = Fields(
    id: Option<string>,
    rating: Number,
    credit: Number,
    interest: Number,
    months: Option<string>)

  function Read(b: Block): Fields {
    Fields(ProjectId(b), Rating(b), Credit(b), Interest(b), MatchDigits(b.duration))
  }

  /** The risk gate: a default probability above 2 or a credit score below 50.
      A figure that reads as NaN fails its comparison and so does not reject. */
  predicate HighDefaultRisk(f: Fields) {
    Greater(f.rating, MaxRating) || Less(f.credit, MinCredit)
  }

  /** The yield gate, `interest - 0.9 - 2.0 < 2.5`, holds exactly for a
      readable interest below 5.4 percent; NaN passes it. */
  predicate LowYieldGate(interest: Number): (r: bool)
    ensures r <==> interest.Finite? && interest.value < MinInterest
  {
    Less(Adjusted(interest), MinAdjusted)
  }

  /** The record built for an accepted block: project id `id`, interest
      `interest` read from its label, duration digits `months`. */
  function NewProject(id: string, b: Block, interest: Number, months: string): (p: Project)
    requires !LowYieldGate(interest)
    ensures p.id == id && p.months == months && p.interest == interest
    ensures p.title == b.title && p.classification == b.classification
    ensures p.rating == b.rating && p.credit == b.credit
    ensures p.adjusted.NaN? <==> interest.NaN?
    ensures p.adjusted.Finite? ==>
              && IsInteger(p.adjusted.value * 100.0)
              && interest.value - 2.905 < p.adjusted.value <= interest.value - 2.895
              && p.adjusted.value >= MinAdjusted
  {
    Project(id, b.title, b.classification, b.rating,
            interest, b.credit, Cents(Adjusted(interest)), months)
  }

  /** The id read names a project the store does not hold yet. */
  predicate IsNew(s: Store, f: Fields) {
    f.id.Some? && f.id.value !in s
  }

  /** The yield gate stated on the interest itself: below 5.4 percent. */
  predicate LowInterest(f: Fields) {
    f.interest.Finite? && f.interest.value < MinInterest
  }

  /** One call of the `data.each` callback on block `b`, whose labels read
      as `f`, against the store `s`. */
  function Step(s: Store, b: Block, f: Fields): (r: StepResult)
    // only an acceptance changes the store, and it adds exactly the new id
    ensures !r.outcome.Accepted? ==> r.store == s
    ensures r.outcome.Accepted? ==>
              var p := r.outcome.project;
              f.id == Some(p.id) && p.id !in s && r.store == s[p.id := p]
    // each outcome, in the order the checks run
    ensures r.outcome == Failed(NoProjectId) <==> f.id.None?
    ensures r.outcome == Known <==> f.id.Some? && f.id.value in s
    ensures r.outcome == HighRisk <==> IsNew(s, f) && HighDefaultRisk(f)
    ensures r.outcome == LowYield <==> IsNew(s, f) && !HighDefaultRisk(f) && LowInterest(f)
    ensures r.outcome == Failed(NoTermMonths) <==>
              IsNew(s, f) && !HighDefaultRisk(f) && !LowInterest(f) && f.months.None?
    ensures r.outcome.Accepted? <==>
              IsNew(s, f) && !HighDefaultRisk(f) && !LowInterest(f) && f.months.Some?
    // what an accepted project records
    ensures r.outcome.Accepted? ==>
              r.outcome.project == NewProject(f.id.value, b, f.interest, f.months.value)
  {
    match f.id
    case None => StepResult(s, Failed(NoProjectId))
    case Some(id) =>
      if id in s then StepResult(s, Known)
      else if HighDefaultRisk(f) then StepResult(s, HighRisk)
      else if LowYieldGate(f.interest) then StepResult(s, LowYield)
      else
        match f.months
        case None => StepResult(s, Failed(NoTermMonths))
        case Some(months) =>
          var p := NewProject(id, b, f.interest, months);
          StepResult(s[id := p], Accepted(p))
  }

  /** What the source does outside the store for an acceptance: write the
      whole store to results.json, then mail the project. */
  datatype Effect = Write(snapshot: Store) | Notify(project: Project)

  function StepEffects(r: StepResult): seq<Effect> {
    if r.outcome.Accepted? then [Write(r.store), Notify(r.outcome.project)] else []
  }

  /** A block together with the values read off it. Reading is pure, so a
      page can be read before it is processed. */
  datatype Entry = Entry(block: Block, fields: Fields)

  function ReadPage(blocks: seq<Block>): (page: seq<Entry>)
    ensures |page| == |blocks|
    ensures forall i | 0 <= i < |blocks| :: page[i] == Entry(blocks[i], Read(blocks[i]))
  {
    seq(|blocks|, i requires 0 <= i < |blocks| => Entry(blocks[i], Read(blocks[i])))
  }

  datatype RunResult = RunResult(store: Store, outcomes: seq<Outcome>, effects: seq<Effect>)

  /** `data.each` over the read page in document order. A failure throws out
      of the callback, so the blocks after it are never looked at. */
  function Process(s: Store, page: seq<Entry>): (r: RunResult)
    ensures |r.outcomes| <= |page|
    ensures page != [] ==> r.outcomes != []
    // the store only grows, and what it held is never modified
    ensures s.Keys <= r.store.Keys
    ensures forall id | id in s :: r.store[id] == s[id]
    decreases |page|
  {
    if page == [] then RunResult(s, [], [])
    else
      var step := Step(s, page[0].block, page[0].fields);
      if step.outcome.Failed? then RunResult(step.store, [step.outcome], [])
      else
        var rest := Process(step.store, page[1..]);
        RunResult(rest.store, [step.outcome] + rest.outcomes, StepEffects(step) + rest.effects)
  }

  /** The blocks of one page, processed against the store. */
  function Run(s: Store, blocks: seq<Block>): RunResult {
    Process(s, ReadPage(blocks))
  }

  /** What the `curl` call delivers: the page's project blocks, or an error. */
  datatype Fetch = RequestFailed | Page(blocks: seq<Block>)

  /** One `exports.run`: a failed request returns before anything is read. */
  function Cycle(s: Store, fetch: Fetch): (r: RunResult)
    ensures fetch.RequestFailed? ==> r.store == s && r.outcomes == [] && r.effects == []
    ensures fetch.Page? ==> r == Run(s, fetch.blocks)
  {
    match fetch
    case RequestFailed => RunResult(s, [], [])
    case Page(blocks) => Run(s, blocks)
  }
}

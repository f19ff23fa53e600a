/** The draft strategy record the creation wizard builds: four sections
    (scanner, buy, sell, simulation) of text, flag and list fields, the
    blank record the wizard starts from, and field-wise reading and
    writing of the record.
 */
module StrategyForm {

  datatype Scanner = Scanner(exchange: string, instrument: string, indicators: seq<string>, customFilter: string)

  datatype Buy = Buy(entryType: string, priceLevel: string, stopLoss: string, limitOrder: bool)

  datatype Sell = Sell(exitType: string, profitTarget: string, trailingStop: bool, timeBasedExit: string)

  datatype Simulation = Simulation(initialCapital: string, positionSize: string, backtest: bool, name: string)

  datatype FormData = FormData(scanner: Scanner, buy: Buy, sell: Sell, simulation: Simulation)

  /** The four keys of the draft record. */
  datatype Section = ScannerSection | BuySection | SellSection | SimulationSection

  /** Every field of every section, one constructor each. */
  datatype Field =
    | Exchange | Instrument | Indicators | CustomFilter
    | EntryType | PriceLevel | StopLoss | LimitOrder
    | ExitType | ProfitTarget | TrailingStop | TimeBasedExit
    | InitialCapital | PositionSize | Backtest | StrategyName

  /** A field's value; the record holds text, booleans, and one list of identifiers. */
  datatype Value = Text(text: string) | Flag(flag: bool) | List(items: seq<string>)

  datatype Kind = TextKind | FlagKind | ListKind

  /** The section a field is declared in. */
  function SectionOf(f: Field): Section
  {
    match f
    case Exchange | Instrument | Indicators | CustomFilter => ScannerSection
    case EntryType | PriceLevel | StopLoss | LimitOrder => BuySection
    case ExitType | ProfitTarget | TrailingStop | TimeBasedExit => SellSection
    case InitialCapital | PositionSize | Backtest | StrategyName => SimulationSection
  }

  /** The property name the field has in its section, which is also the key
      the wizard files that field's error message under. */
  function Key(f: Field): string
  {
    match f
    case Exchange => "exchange"
    case Instrument => "instrument"
    case Indicators => "indicators"
    case CustomFilter => "customFilter"
    case EntryType => "entryType"
    case PriceLevel => "priceLevel"
    case StopLoss => "stopLoss"
    case LimitOrder => "limitOrder"
    case ExitType => "exitType"
    case ProfitTarget => "profitTarget"
    case TrailingStop => "trailingStop"
    case TimeBasedExit => "timeBasedExit"
    case InitialCapital => "initialCapital"
    case PositionSize => "positionSize"
    case Backtest => "backtest"
    case StrategyName => "name"
  }

  /** The declared type of a field. */
  function KindOf(f: Field): Kind
  {
    match f
    case Indicators => ListKind
    case LimitOrder | TrailingStop | Backtest => FlagKind
    case _ => TextKind
  }

  function ValueKind(v: Value): Kind
  {
    match v
    case Text(_) => TextKind
    case Flag(_) => FlagKind
    case List(_) => ListKind
  }

  /** A value may be stored in a field when it has the field's declared type. */
  predicate Fits(f: Field, v: Value)
  {
    ValueKind(v) == KindOf(f)
  }

  /** The empty value of a kind: "" for text, false for a flag, [] for a list. */
  function Blank(k: Kind): (v: Value)
    ensures ValueKind(v) == k
  {
    match k
    case TextKind => Text("")
    case FlagKind => Flag(false)
    case ListKind => List([])
  }

  /** Reads one field of the draft. */
  function Get(form: FormData, f: Field): (v: Value)
    ensures Fits(f, v)
  {
    match f
    case Exchange => Text(form.scanner.exchange)
    case Instrument => Text(form.scanner.instrument)
    case Indicators => List(form.scanner.indicators)
    case CustomFilter => Text(form.scanner.customFilter)
    case EntryType => Text(form.buy.entryType)
    case PriceLevel => Text(form.buy.priceLevel)
    case StopLoss => Text(form.buy.stopLoss)
    case LimitOrder => Flag(form.buy.limitOrder)
    case ExitType => Text(form.sell.exitType)
    case ProfitTarget => Text(form.sell.profitTarget)
    case TrailingStop => Flag(form.sell.trailingStop)
    case TimeBasedExit => Text(form.sell.timeBasedExit)
    case InitialCapital => Text(form.simulation.initialCapital)
    case PositionSize => Text(form.simulation.positionSize)
    case Backtest => Flag(form.simulation.backtest)
    case StrategyName => Text(form.simulation.name)
  }

  /** The blank draft the wizard starts from. */
  const Initial: FormData :=
    FormData(
      Scanner("", "", [], ""),
      Buy("", "", "", false),
      Sell("", "", false, ""),
      Simulation("", "", false, ""))

  /** Every field of the initial draft holds the blank value of its type. */
  lemma InitialIsBlank(f: Field)
    ensures Get(Initial, f) == Blank(KindOf(f))
  {
  }

  /** Two drafts that agree on every field are the same draft. */
  lemma Extensionality(a: FormData, b: FormData)
    requires forall f :: Get(a, f) == Get(b, f)
    ensures a == b
  {
    assert Get(a, Exchange) == Get(b, Exchange);
    assert Get(a, Instrument) == Get(b, Instrument);
    assert Get(a, Indicators) == Get(b, Indicators);
    assert Get(a, CustomFilter) == Get(b, CustomFilter);
    assert a.scanner == b.scanner;
    assert Get(a, EntryType) == Get(b, EntryType);
    assert Get(a, PriceLevel) == Get(b, PriceLevel);
    assert Get(a, StopLoss) == Get(b, StopLoss);
    assert Get(a, LimitOrder) == Get(b, LimitOrder);
    assert a.buy == b.buy;
    assert Get(a, ExitType) == Get(b, ExitType);
    assert Get(a, ProfitTarget) == Get(b, ProfitTarget);
    assert Get(a, TrailingStop) == Get(b, TrailingStop);
    assert Get(a, TimeBasedExit) == Get(b, TimeBasedExit);
    assert a.sell == b.sell;
    assert Get(a, InitialCapital) == Get(b, InitialCapital);
    assert Get(a, PositionSize) == Get(b, PositionSize);
    assert Get(a, Backtest) == Get(b, Backtest);
    assert Get(a, StrategyName) == Get(b, StrategyName);
    assert a.simulation == b.simulation;
  }

  /** Writes one field of the draft: the section holding the field is copied
      with that one field replaced, and every other section is kept. */
  function Set(form: FormData, f: Field, v: Value): (r: FormData)
    requires Fits(f, v)
    ensures Get(r, f) == v
    ensures forall g :: g != f ==> Get(r, g) == Get(form, g)
    ensures SectionOf(f) != ScannerSection ==> r.scanner == form.scanner
    ensures SectionOf(f) != BuySection ==> r.buy == form.buy
    ensures SectionOf(f) != SellSection ==> r.sell == form.sell
    ensures SectionOf(f) != SimulationSection ==> r.simulation == form.simulation
  {
    match f
    case Exchange => form.(scanner := form.scanner.(exchange := v.text))
    case Instrument => form.(scanner := form.scanner.(instrument := v.text))
    case Indicators => form.(scanner := form.scanner.(indicators := v.items))
    case CustomFilter => form.(scanner := form.scanner.(customFilter := v.text))
    case EntryType => form.(buy := form.buy.(entryType := v.text))
    case PriceLevel => form.(buy := form.buy.(priceLevel := v.text))
    case StopLoss => form.(buy := form.buy.(stopLoss := v.text))
    case LimitOrder => form.(buy := form.buy.(limitOrder := v.flag))
    case ExitType => form.(sell := form.sell.(exitType := v.text))
    case ProfitTarget => form.(sell := form.sell.(profitTarget := v.text))
    case TrailingStop => form.(sell := form.sell.(trailingStop := v.flag))
    case TimeBasedExit => form.(sell := form.sell.(timeBasedExit := v.text))
    case InitialCapital => form.(simulation := form.simulation.(initialCapital := v.text))
    case PositionSize => form.(simulation := form.simulation.(positionSize := v.text))
    case Backtest => form.(simulation := form.simulation.(backtest := v.flag))
    case StrategyName => form.(simulation := form.simulation.(name := v.text))
  }

  /** Field keys are unique across all sections, so a key names one field. */
  lemma KeyInjective(f: Field, g: Field)
    requires Key(f) == Key(g)
    ensures f == g
  {
  }

  /** Two fields share a key exactly when they are the same field. */
  lemma KeyDistinct(f: Field, g: Field)
    ensures Key(f) == Key(g) <==> f == g
  {
    if Key(f) == Key(g) {
      KeyInjective(f, g);
    }
  }

  /** Writing back the value a field already holds leaves the draft as it was. */
  lemma SetOwnValue(form: FormData, f: Field)
    ensures Set(form, f, Get(form, f)) == form
  {
    Extensionality(Set(form, f, Get(form, f)), form);
  }

  /** A second write to the same field overrides the first. */
  lemma SetSetSame(form: FormData, f: Field, v: Value, w: Value)
    requires Fits(f, v) && Fits(f, w)
    ensures Set(Set(form, f, v), f, w) == Set(form, f, w)
  {
    Extensionality(Set(Set(form, f, v), f, w), Set(form, f, w));
  }

  /** Writes to two different fields do not interfere, in either order. */
  lemma SetCommutes(form: FormData, f: Field, v: Value, g: Field, w: Value)
    requires f != g && Fits(f, v) && Fits(g, w)
    ensures Set(Set(form, f, v), g, w) == Set(Set(form, g, w), f, v)
  {
    Extensionality(Set(Set(form, f, v), g, w), Set(Set(form, g, w), f, v));
  }
}

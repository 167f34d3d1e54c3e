/** The converter: expansion of a query into (from, to) tasks, alias
    resolution and the skip rule, one conversion per task against the rate
    cache, and the assembly of the results in task order. The tasks run
    one after the other here, each seeing the cache the previous ones
    left. */
module CurrencyConverter {

  import opened Results
  import opened Chars
  import opened RateCache
  import opened Precision
  import opened AliasManager

  /** The converter settings the model reads. */
  datatype Settings = Settings(
    currencies: seq<string>,
    localCurrency: string,
    direction: int,
    cacheTtl: int,        // the cache duration, in the clock's unit (seconds)
    outputStyle: int)

  /** Culture-dependent number display: the culture's currency decimal
      digits and `ToString("N")` / `ToString("N<digits>")`. */
  datatype Formatting = Formatting(currencyDigits: nat, format: (real, Option<nat>) -> string)

  /** Everything a conversion depends on besides the cache. */
  datatype Context = Context(aliases: Aliases, settings: Settings, fmt: Formatting, net: Network, now: int)

  /** What activating a result does. */
  datatype Action = CopyText(text: string) | OpenCurrencyList | OpenReadme | NoAction

  /** A result shown in the palette. */
  datatype Item = Item(title: string, subtitle: string, action: Action)

  // ---------------------------------------------------------------------
  // Task expansion
  // ---------------------------------------------------------------------

  /** `local -> c` for every configured currency, in configured order. */
  function FromLocal(local: string, cs: seq<string>): (r: seq<Pair>)
    ensures |r| == |cs| && forall i :: 0 <= i < |cs| ==> r[i] == Pair(local, cs[i])
  {
    seq(|cs|, i requires 0 <= i < |cs| => Pair(local, cs[i]))
  }

  /** `c -> local` for every configured currency, in configured order. */
  function ToLocal(local: string, cs: seq<string>): (r: seq<Pair>)
    ensures |r| == |cs| && forall i :: 0 <= i < |cs| ==> r[i] == Pair(cs[i], local)
  {
    seq(|cs|, i requires 0 <= i < |cs| => Pair(cs[i], local))
  }

  /** The task list of `GetConversionResults`, in index order. */
  function PlanTasks(settings: Settings, from: string, to: string): (r: seq<Pair>)
    ensures from == [] ==> |r| == 2 * |settings.currencies|
    ensures from != [] && to == [] ==>
      |r| == |settings.currencies| + (if settings.direction == 0 || settings.direction == 1 then 1 else 0)
    ensures from != [] && to != [] ==> r == [Pair(from, to)]
  {
    var cs := settings.currencies;
    var local := settings.localCurrency;
    if from == [] then
      if settings.direction == 0 then FromLocal(local, cs) + ToLocal(local, cs)
      else ToLocal(local, cs) + FromLocal(local, cs)
    else if to == [] then
      (if settings.direction == 0 then [Pair(from, local)] else [])
      + FromLocal(from, cs)
      + (if settings.direction == 1 then [Pair(from, local)] else [])
    else [Pair(from, to)]
  }

  /** With no base currency the target is ignored: with direction 0 the
      first half converts the local currency into each configured one and
      the second half back; any other direction swaps the halves. */
  lemma PlanWithoutFrom(settings: Settings, to: string)
    ensures var r := PlanTasks(settings, [], to);
      var cs := settings.currencies;
      var n := |cs|;
      && r == PlanTasks(settings, [], [])
      && forall i :: 0 <= i < n ==>
           if settings.direction == 0 then
             r[i] == Pair(settings.localCurrency, cs[i]) && r[n + i] == Pair(cs[i], settings.localCurrency)
           else
             r[i] == Pair(cs[i], settings.localCurrency) && r[n + i] == Pair(settings.localCurrency, cs[i])
  {
  }

  /** Changing the direction away from 0 exchanges the two halves. */
  lemma DirectionSwapsHalves(settings: Settings, d: int)
    requires settings.direction == 0 && d != 0
    ensures var r0 := PlanTasks(settings, [], []);
      var r1 := PlanTasks(settings.(direction := d), [], []);
      var n := |settings.currencies|;
      r1 == r0[n..] + r0[..n]
  {
    var r0 := PlanTasks(settings, [], []);
    var n := |settings.currencies|;
    var a := FromLocal(settings.localCurrency, settings.currencies);
    var b := ToLocal(settings.localCurrency, settings.currencies);
    assert r0 == a + b;
    assert r0[..n] == a && r0[n..] == b;
  }

  /** With a base currency and no target: one task into each configured
      currency, in configured order, plus the task into the local
      currency, first for direction 0, last for direction 1, and absent
      otherwise. */
  lemma PlanWithoutTo(settings: Settings, from: string)
    requires from != []
    ensures settings.direction == 0 ==>
      PlanTasks(settings, from, []) == [Pair(from, settings.localCurrency)] + FromLocal(from, settings.currencies)
    ensures settings.direction == 1 ==>
      PlanTasks(settings, from, []) == FromLocal(from, settings.currencies) + [Pair(from, settings.localCurrency)]
    ensures settings.direction != 0 && settings.direction != 1 ==>
      PlanTasks(settings, from, []) == FromLocal(from, settings.currencies)
  {
    var each := FromLocal(from, settings.currencies);
    assert [] + each + [] == each;
  }

  // ---------------------------------------------------------------------
  // One task
  // ---------------------------------------------------------------------

  /** `GetCurrencyFromAlias`: an alias is replaced by its currency; any
      other token passes through unchanged. */
  function GetCurrencyFromAlias(aliases: Aliases, currency: string): (r: string)
    ensures HasAlias(aliases, currency) ==> GetAlias(aliases, currency) == Some(r)
    ensures !HasAlias(aliases, currency) ==> r == currency
  {
    if HasAlias(aliases, currency) then
      match GetAlias(aliases, currency)
      case Some(v) => v
      case None => currency
    else currency
  }

  /** A task after lower-casing and alias resolution of both sides. */
  function Resolve(aliases: Aliases, p: Pair): Pair {
    Pair(GetCurrencyFromAlias(aliases, Lower(p.from)), GetCurrencyFromAlias(aliases, Lower(p.to)))
  }

  /** The skip rule: equal sides (compared ordinally) or an empty side. */
  predicate Skipped(aliases: Aliases, p: Pair) {
    var q := Resolve(aliases, p);
    q.from == q.to || q.from == [] || q.to == []
  }

  /** The amount as shown: the converted magnitude with the sign of the
      amount typed. */
  function ShownAmount(amount: real, converted: real): (r: real)
    requires converted >= 0.0
    ensures Abs(r) == converted
    ensures amount < 0.0 ==> r <= 0.0
    ensures amount >= 0.0 ==> r >= 0.0
  {
    if amount < 0.0 then converted * -1.0 else converted
  }

  const CurrencyListHint: string := "Press enter or click to open the currencies list"

  /** The item of a successful conversion of `amount` from `q.from` into
      `q.to` at `rate`. */
  function ConversionItem(ctx: Context, amount: real, q: Pair, rate: real): (r: Item)
    ensures r.subtitle == "Currency conversion from " + Upper(q.from) + " to " + Upper(q.to)
  {
    var (converted, precision) := CalculateConvertedAmount(amount, rate, ctx.fmt.currencyDigits);
    var fromText := ctx.fmt.format(amount, None);
    var toText := ctx.fmt.format(ShownAmount(amount, converted), Some(precision));
    var compressed := toText + " " + Upper(q.to);
    var expanded := fromText + " " + Upper(q.from) + " = " + toText + " " + Upper(q.to);
    Item(if ctx.settings.outputStyle == 0 then compressed else expanded,
         "Currency conversion from " + Upper(q.from) + " to " + Upper(q.to),
         CopyText(toText))
  }

  /** The item of a failed lookup: the exception text. */
  function FailureItem(e: RateError): (r: Item)
    ensures r.title == ErrorMessage(e) && r.action == OpenCurrencyList
  {
    Item(ErrorMessage(e), CurrencyListHint, OpenCurrencyList)
  }

  /** Outcome of one task: its item, if any, the cache afterwards and the
      requests made. */
  datatype TaskResult = TaskResult(item: Option<Item>, cache: Cache, calls: seq<Call>)

  /** `GetConversionAsync`. */
  function Convert(ctx: Context, amount: real, p: Pair, cache: Cache): (r: TaskResult)
    ensures Normalised(cache) ==> Normalised(r.cache)
    ensures r.item.None? <==> Skipped(ctx.aliases, p)
    ensures r.item.Some? ==> r.item.value.action.CopyText? || r.item.value.action.OpenCurrencyList?
    ensures !Skipped(ctx.aliases, p) ==>
      var q := Resolve(ctx.aliases, p);
      var look := GetConversionRate(cache, ctx.net, ctx.now, ctx.settings.cacheTtl, q);
      && r.cache == look.cache && r.calls == look.calls
      && (look.rate.Ok? ==> r.item == Some(ConversionItem(ctx, amount, q, look.rate.value)))
      && (look.rate.Err? ==> r.item == Some(FailureItem(look.rate.error)))
  {
    var q := Resolve(ctx.aliases, p);
    if q.from == q.to || q.from == [] || q.to == [] then TaskResult(None, cache, [])
    else
      var look := GetConversionRate(cache, ctx.net, ctx.now, ctx.settings.cacheTtl, q);
      match look.rate
      case Ok(rate) => TaskResult(Some(ConversionItem(ctx, amount, q, rate)), look.cache, look.calls)
      case Err(e) => TaskResult(Some(FailureItem(e)), look.cache, look.calls)
  }

  /** A skipped task yields no item, makes no request and leaves the cache
      alone; any other task yields an item, and asks the network exactly
      when the cache has no fresh rate for its resolved pair. */
  lemma SkipRule(ctx: Context, amount: real, p: Pair, cache: Cache)
    ensures var r := Convert(ctx, amount, p, cache);
      && (r.item.None? <==> Skipped(ctx.aliases, p))
      && (Skipped(ctx.aliases, p) ==> r.cache == cache && r.calls == [])
      && (!Skipped(ctx.aliases, p) ==>
            var q := Resolve(ctx.aliases, p);
            (r.calls == [] <==> Lookup(cache, q).Some? && Fresh(Lookup(cache, q).value, ctx.now, ctx.settings.cacheTtl)))
  {
  }

  /** A task whose sides are the same token, or the same after alias
      resolution, is skipped whatever the aliases hold. */
  lemma SameCurrencyIsSkipped(aliases: Aliases, c: string)
    ensures Skipped(aliases, Pair(c, c))
  {
  }

  // ---------------------------------------------------------------------
  // All tasks
  // ---------------------------------------------------------------------

  /** The results of running the tasks in index order: one slot per task
      (None for a skipped task), the final cache and all requests made. */
  datatype Run = Run(slots: seq<Option<Item>>, cache: Cache, calls: seq<Call>)

  function RunTasks(ctx: Context, amount: real, tasks: seq<Pair>, cache: Cache): (r: Run)
    ensures |r.slots| == |tasks|
    ensures Normalised(cache) ==> Normalised(r.cache)
    decreases |tasks|
  {
    if tasks == [] then Run([], cache, [])
    else
      var first := Convert(ctx, amount, tasks[0], cache);
      var rest := RunTasks(ctx, amount, tasks[1..], first.cache);
      Run([first.item] + rest.slots, rest.cache, first.calls + rest.calls)
  }

  /** What task `i` yields when run on the cache the tasks before it left. */
  function TaskOutcome(ctx: Context, amount: real, tasks: seq<Pair>, cache: Cache, i: nat): TaskResult
    requires i < |tasks|
  {
    Convert(ctx, amount, tasks[i], RunTasks(ctx, amount, tasks[..i], cache).cache)
  }

  /** Slot `i` holds task `i`'s own item, converted on the cache the tasks
      before it left: so it is empty exactly when task `i` is skipped, and
      a filled slot either copies a result or opens the currency list. */
  lemma {:induction false} SlotOfTask(ctx: Context, amount: real, tasks: seq<Pair>, cache: Cache, i: nat)
    requires i < |tasks|
    ensures var r := RunTasks(ctx, amount, tasks, cache);
      && r.slots[i] == Convert(ctx, amount, tasks[i], RunTasks(ctx, amount, tasks[..i], cache).cache).item
      && (r.slots[i].None? <==> Skipped(ctx.aliases, tasks[i]))
      && (r.slots[i].Some? ==> r.slots[i].value.action.CopyText? || r.slots[i].value.action.OpenCurrencyList?)
    decreases i
  {
    var first := Convert(ctx, amount, tasks[0], cache);
    var rest := RunTasks(ctx, amount, tasks[1..], first.cache);
    var r := RunTasks(ctx, amount, tasks, cache);
    assert r.slots == [first.item] + rest.slots;
    if i > 0 {
      SlotOfTask(ctx, amount, tasks[1..], first.cache, i - 1);
      assert tasks[1..][i - 1] == tasks[i];
      assert r.slots[i] == rest.slots[i - 1];
      var before := tasks[..i];
      assert before[0] == tasks[0];
      assert before[1..] == tasks[1..][..i - 1];
    } else {
      assert tasks[..0] == [];
    }
  }

  /** `SlotOfTask` for every slot at once. */
  lemma RunTasksSlots(ctx: Context, amount: real, tasks: seq<Pair>, cache: Cache)
    ensures var r := RunTasks(ctx, amount, tasks, cache);
      && (forall i :: 0 <= i < |tasks| ==> r.slots[i] == TaskOutcome(ctx, amount, tasks, cache, i).item)
      && (forall i :: 0 <= i < |tasks| ==> (r.slots[i].None? <==> Skipped(ctx.aliases, tasks[i])))
      && (forall x :: Some(x) in r.slots ==> x.action.CopyText? || x.action.OpenCurrencyList?)
  {
    forall i | 0 <= i < |tasks| {
      SlotOfTask(ctx, amount, tasks, cache, i);
    }
  }

  /** Number of filled slots. */
  function CountSome<T>(slots: seq<Option<T>>): nat
    decreases |slots|
  {
    if slots == [] then 0 else (if slots[0].Some? then 1 else 0) + CountSome(slots[1..])
  }

  /** `results.Where(r => r != null)`: the filled slots, in slot order. */
  function Compact<T>(slots: seq<Option<T>>): (r: seq<T>)
    ensures |r| == CountSome(slots)
    ensures forall x :: x in r ==> Some(x) in slots
    ensures forall i :: 0 <= i < |slots| && slots[i].Some? ==> slots[i].value in r
    decreases |slots|
  {
    if slots == [] then []
    else (if slots[0].Some? then [slots[0].value] else []) + Compact(slots[1..])
  }

  /** The filled slot `i` lands at the position given by the number of
      filled slots before it, so filled slots keep their index order. */
  lemma {:induction false} CompactKeepsOrder<T>(slots: seq<Option<T>>, i: nat)
    requires i < |slots| && slots[i].Some?
    ensures CountSome(slots[..i]) < |Compact(slots)|
    ensures Compact(slots)[CountSome(slots[..i])] == slots[i].value
    decreases i
  {
    if i > 0 {
      CompactKeepsOrder(slots[1..], i - 1);
      assert slots[..i][1..] == slots[1..][..i - 1];
    }
  }

  lemma {:induction false} CountSomeMonotone<T>(slots: seq<Option<T>>, i: nat, j: nat)
    requires i <= j <= |slots|
    ensures CountSome(slots[..i]) <= CountSome(slots[..j])
    ensures i < j && slots[i].Some? ==> CountSome(slots[..i]) < CountSome(slots[..j])
    decreases i
  {
    if i > 0 {
      assert slots[..i][1..] == slots[1..][..i - 1];
      assert slots[..j][1..] == slots[1..][..j - 1];
      CountSomeMonotone(slots[1..], i - 1, j - 1);
    } else if j > 0 {
      assert slots[..j][1..] == slots[1..][..j - 1];
    }
  }

  /** The loop that copies the task results into an index-ordered array
      and keeps the non-null ones. */
  method CompactSlots<T>(slots: seq<Option<T>>) returns (items: seq<T>)
    ensures items == Compact(slots)
  {
    var i := |slots|;
    items := [];
    while i > 0
      invariant 0 <= i <= |slots|
      invariant items == Compact(slots[i..])
    {
      i := i - 1;
      assert slots[i..][1..] == slots[i + 1..];
      if slots[i].Some? {
        items := [slots[i].value] + items;
      }
    }
    assert slots[0..] == slots;
  }

  /** Outcome of a whole query: the items in task order, the cache
      afterwards and the requests made. */
  datatype Conversion = Conversion(items: seq<Item>, cache: Cache, calls: seq<Call>)

  /** `GetConversionResults`. */
  function GetConversionResults(ctx: Context, amount: real, from: string, to: string, cache: Cache): (r: Conversion)
    ensures Normalised(cache) ==> Normalised(r.cache)
    ensures |r.items| <= |PlanTasks(ctx.settings, from, to)|
    ensures forall x :: x in r.items ==> x.action.CopyText? || x.action.OpenCurrencyList?
    ensures var tasks := PlanTasks(ctx.settings, from, to);
      forall i :: 0 <= i < |tasks| && !Skipped(ctx.aliases, tasks[i]) ==>
        TaskOutcome(ctx, amount, tasks, cache, i).item.value in r.items
    ensures var tasks := PlanTasks(ctx.settings, from, to);
      forall x :: x in r.items ==>
        exists i :: 0 <= i < |tasks| && TaskOutcome(ctx, amount, tasks, cache, i).item == Some(x)
  {
    var tasks := PlanTasks(ctx.settings, from, to);
    var run := RunTasks(ctx, amount, tasks, cache);
    CountSomeBound(run.slots);
    RunTasksSlots(ctx, amount, tasks, cache);
    Conversion(Compact(run.slots), run.cache, run.calls)
  }

  lemma {:induction false} CountSomeBound<T>(slots: seq<Option<T>>)
    ensures CountSome(slots) <= |slots|
    decreases |slots|
  {
    if slots != [] {
      CountSomeBound(slots[1..]);
    }
  }

  /** Each task that is not skipped contributes exactly one item, its own
      conversion on the cache the tasks before it left, placed after the
      items of the tasks before it; skipped tasks contribute nothing. */
  lemma ResultsInTaskOrder(ctx: Context, amount: real, from: string, to: string, cache: Cache, i: nat)
    requires i < |PlanTasks(ctx.settings, from, to)|
    requires !Skipped(ctx.aliases, PlanTasks(ctx.settings, from, to)[i])
    ensures var run := RunTasks(ctx, amount, PlanTasks(ctx.settings, from, to), cache);
      var r := GetConversionResults(ctx, amount, from, to, cache);
      && CountSome(run.slots[..i]) < |r.items|
      && run.slots[i] == Some(r.items[CountSome(run.slots[..i])])
      && r.items[CountSome(run.slots[..i])]
         == Convert(ctx, amount, PlanTasks(ctx.settings, from, to)[i],
                    RunTasks(ctx, amount, PlanTasks(ctx.settings, from, to)[..i], cache).cache).item.value
      && forall j :: i < j < |run.slots| && run.slots[j].Some? ==>
           CountSome(run.slots[..i]) < CountSome(run.slots[..j])
  {
    var tasks := PlanTasks(ctx.settings, from, to);
    var run := RunTasks(ctx, amount, tasks, cache);
    SlotOfTask(ctx, amount, tasks, cache, i);
    CompactKeepsOrder(run.slots, i);
    forall j | i < j < |run.slots| && run.slots[j].Some? {
      CountSomeMonotone(run.slots, i, j);
    }
  }
}

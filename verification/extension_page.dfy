/** The query front end of the palette page: the separator setting, the
    shape of a query the page's pattern accepts, evaluation of the amount,
    normalisation of the currency tokens, and the de-duplication of the
    items shown. The regular-expression engine is not modelled: the page
    is handed the engine's match, and the lemmas describe any match that
    fits the pattern. */
module ExtensionPage {

  import opened Results
  import opened Chars
  import opened CalculateEngine
  import opened RateCache
  import opened CurrencyConverter

  // ---------------------------------------------------------------------
  // Separators
  // ---------------------------------------------------------------------

  /** The currency decimal and group separators of a number format. */
  datatype Separators = Separators(decimalSep: char, groupSep: char)

  /** `GetNumberFormatInfo`: setting 1 is "1,234.5", setting 2 is
      "1.234,5", anything else defers to the current culture. */
  function GetNumberFormatInfo(setting: int, culture: Separators): (r: Separators)
    ensures setting == 1 ==> r == Separators('.', ',')
    ensures setting == 2 ==> r == Separators(',', '.')
    ensures setting != 1 && setting != 2 ==> r == culture
  {
    match setting
    case 1 => Separators('.', ',')
    case 2 => Separators(',', '.')
    case _ => culture
  }

  /** The two fixed settings are mirror images of each other. */
  lemma FixedSettingsMirror(culture: Separators)
    ensures GetNumberFormatInfo(2, culture).decimalSep == GetNumberFormatInfo(1, culture).groupSep
    ensures GetNumberFormatInfo(2, culture).groupSep == GetNumberFormatInfo(1, culture).decimalSep
    ensures GetNumberFormatInfo(1, culture).decimalSep != GetNumberFormatInfo(1, culture).groupSep
  {
  }

  // ---------------------------------------------------------------------
  // The query pattern
  // ---------------------------------------------------------------------

  // `(?:\d+|\s+|<decimal>|<group>|[+\-*/()])`, one character at a time.
  predicate IsAmountChar(c: char, seps: Separators) {
    IsDigit(c) || IsWhiteSpace(c) || c == seps.decimalSep || c == seps.groupSep
    || c == '+' || c == '-' || c == '*' || c == '/' || c == '(' || c == ')'
  }

  predicate AllTokenChars(s: string) {
    forall i :: 0 <= i < |s| ==> IsTokenChar(s[i])
  }

  /** Whether the amount comes before or after the base currency. */
  datatype Layout = AmountFirst | FromFirst

  /** A match of the page's pattern, with the white space around the
      captures and the optional `to`/`in` keyword spelled out. */
  datatype QueryMatch = QueryMatch(
    layout: Layout,
    lead: string, amount: string, gap: string, from: string,
    mid: string, keyword: string, mid2: string, to: string, trail: string)

  /** The text a match spans. */
  function MatchedText(m: QueryMatch): string {
    m.lead
    + (match m.layout
       case AmountFirst => m.amount + m.gap + m.from
       case FromFirst => m.from + m.gap + m.amount)
    + m.mid + m.keyword + m.mid2 + m.to + m.trail
  }

  /** `m` is a match of the anchored pattern on `text`: white space where
      the pattern has `\s*`, a non-empty amount of amount characters,
      currency tokens of letters, currency symbols and `_`, and an
      optional `to` or `in`. */
  predicate Matches(text: string, m: QueryMatch, seps: Separators) {
    && AllWhiteSpace(m.lead) && AllWhiteSpace(m.gap) && AllWhiteSpace(m.mid)
    && AllWhiteSpace(m.mid2) && AllWhiteSpace(m.trail)
    && (m.keyword == "" || m.keyword == "to" || m.keyword == "in")
    && |m.amount| > 0
    && (forall i :: 0 <= i < |m.amount| ==> IsAmountChar(m.amount[i], seps))
    && AllTokenChars(m.from) && AllTokenChars(m.to)
    && text == MatchedText(m)
  }

  // ---------------------------------------------------------------------
  // ParseQuery
  // ---------------------------------------------------------------------

  const InvalidExpressionItem: Item :=
    Item("Invalid expression provided", "Please check your mathematical expression", NoAction)

  /** `ParseQuery`: `m` is the engine's match of the trimmed search text:
      a match of the pattern when there is one, and None only when the
      pattern cannot match. The amount is evaluated with the group
      separators removed; on failure the single invalid-expression item is
      returned and no conversion runs. Otherwise the trimmed, lower-cased
      tokens are converted. */
  function ParseQuery(ctx: Context, seps: Separators, search: string, m: Option<QueryMatch>, cache: Cache): (r: Conversion)
    requires m.Some? ==> Matches(Trim(search), m.value, seps)
    requires m.None? ==> forall q :: !Matches(Trim(search), q, seps)
    ensures m.None? ==> r == Conversion([], cache, [])
    ensures (forall q :: !Matches(Trim(search), q, seps)) ==> r == Conversion([], cache, [])
    ensures (r.items == [InvalidExpressionItem]) <==>
      (m.Some? && Evaluate(RemoveChar(m.value.amount, seps.groupSep), seps.decimalSep).Err?)
    ensures r.items == [InvalidExpressionItem] ==> r.cache == cache && r.calls == []
  {
    match m
    case None => Conversion([], cache, [])
    case Some(q) =>
      match Evaluate(RemoveChar(q.amount, seps.groupSep), seps.decimalSep)
      case Err(_) => Conversion([InvalidExpressionItem], cache, [])
      case Ok(amount) =>
        var from := Lower(Trim(q.from));
        var to := if Trim(q.to) == [] then [] else Lower(Trim(q.to));
        NoInvalidItemConverted(ctx, amount, from, to, cache);
        GetConversionResults(ctx, amount, from, to, cache)
  }

  /** A conversion never yields the invalid-expression item: its items
      copy a result or open the currency list. */
  lemma NoInvalidItemConverted(ctx: Context, amount: real, from: string, to: string, cache: Cache)
    ensures InvalidExpressionItem !in GetConversionResults(ctx, amount, from, to, cache).items
  {
    var items := GetConversionResults(ctx, amount, from, to, cache).items;
    assert forall x :: x in items ==> x.action.CopyText? || x.action.OpenCurrencyList?;
  }

  /** No white space is a token character, so the captured tokens need no
      trimming. */
  lemma TokenCharIsNotWhiteSpace(c: char)
    requires IsTokenChar(c)
    ensures !IsWhiteSpace(c)
  {
  }

  /** Lower-casing keeps a token character a token character. */
  lemma LowerKeepsTokenChar(c: char)
    requires IsTokenChar(c)
    ensures IsTokenChar(LowerChar(c))
  {
  }

  /** Token strings hold no white space and stay token strings when
      lower-cased. */
  lemma TokenString(s: string)
    requires AllTokenChars(s)
    ensures Trim(s) == s && AllTokenChars(Lower(s))
  {
    forall i | 0 <= i < |s|
      ensures !IsWhiteSpace(s[i]) && IsTokenChar(Lower(s)[i])
    {
      TokenCharIsNotWhiteSpace(s[i]);
      LowerKeepsTokenChar(s[i]);
    }
    TrimWithoutWhiteSpace(s);
  }

  lemma {:induction false} RemoveGroupKeepsAmountChars(a: string, seps: Separators)
    requires forall i :: 0 <= i < |a| ==> IsAmountChar(a[i], seps)
    ensures var r := RemoveChar(a, seps.groupSep);
      forall i :: 0 <= i < |r| ==> IsAmountChar(r[i], seps)
    decreases |a|
  {
    if a != [] {
      RemoveGroupKeepsAmountChars(a[1..], seps);
    }
  }

  /** For a match of the pattern the converter receives the currency
      tokens lower-cased, still made of token characters, and the target
      as "" when none was typed; the amount it evaluates has no group
      separator left and only digits, white space, decimal separators and
      operators. */
  lemma MatchedTokens(text: string, seps: Separators, m: QueryMatch)
    requires Matches(text, m, seps)
    ensures Trim(m.from) == m.from && Trim(m.to) == m.to
    ensures AllTokenChars(Lower(m.from)) && AllTokenChars(Lower(m.to))
    ensures var a := RemoveChar(m.amount, seps.groupSep);
      forall i :: 0 <= i < |a| ==> a[i] != seps.groupSep && IsAmountChar(a[i], seps)
  {
    TokenString(m.from);
    TokenString(m.to);
    RemoveGroupKeepsAmountChars(m.amount, seps);
  }

  /** Once the amount evaluates, the page asks for exactly the conversions
      of the lower-cased tokens. */
  lemma ParseQueryConverts(ctx: Context, search: string, seps: Separators, m: QueryMatch, cache: Cache)
    requires Matches(Trim(search), m, seps)
    requires Evaluate(RemoveChar(m.amount, seps.groupSep), seps.decimalSep).Ok?
    ensures var v := Evaluate(RemoveChar(m.amount, seps.groupSep), seps.decimalSep).value;
      ParseQuery(ctx, seps, search, Some(m), cache) == GetConversionResults(ctx, v, Lower(m.from), Lower(m.to), cache)
  {
    MatchedTokens(Trim(search), seps, m);
  }

  // ---------------------------------------------------------------------
  // De-duplication
  // ---------------------------------------------------------------------

  /** Items are grouped by title and subtitle. */
  function KeyOf(x: Item): (string, string) {
    (x.title, x.subtitle)
  }

  predicate HasKey(xs: seq<Item>, k: (string, string)) {
    exists j :: 0 <= j < |xs| && KeyOf(xs[j]) == k
  }

  /** `GroupBy(r => (r.Title, r.Subtitle)).Select(g => g.First())`, read
      left to right: an item is kept unless an item with its key was
      already kept. */
  function DedupFrom(xs: seq<Item>, kept: seq<Item>): seq<Item>
    decreases |xs|
  {
    if xs == [] then kept
    else DedupFrom(xs[1..], if HasKey(kept, KeyOf(xs[0])) then kept else kept + [xs[0]])
  }

  function Dedup(xs: seq<Item>): seq<Item> {
    DedupFrom(xs, [])
  }

  /** Item `i` is the first with its key. */
  predicate IsFirst(xs: seq<Item>, i: nat)
    requires i < |xs|
  {
    forall j :: 0 <= j < i ==> KeyOf(xs[j]) != KeyOf(xs[i])
  }

  /** Reference definition: the items that are first with their key, in
      input order. */
  function KeepFirsts(xs: seq<Item>): seq<Item>
    decreases |xs|
  {
    if xs == [] then []
    else KeepFirsts(xs[..|xs| - 1]) + (if IsFirst(xs, |xs| - 1) then [xs[|xs| - 1]] else [])
  }

  /** Keeping the first item of every key keeps every key. */
  lemma {:induction false} KeepFirstsKeys(xs: seq<Item>, k: (string, string))
    ensures HasKey(KeepFirsts(xs), k) <==> HasKey(xs, k)
    decreases |xs|
  {
    if xs != [] {
      var init := xs[..|xs| - 1];
      var last := xs[|xs| - 1];
      KeepFirstsKeys(init, k);
      var kf := KeepFirsts(init);
      var tail := if IsFirst(xs, |xs| - 1) then [last] else [];
      assert KeepFirsts(xs) == kf + tail;
      if HasKey(KeepFirsts(xs), k) {
        var j :| 0 <= j < |kf + tail| && KeyOf((kf + tail)[j]) == k;
        if j < |kf| {
          assert HasKey(kf, k);
          var j' :| 0 <= j' < |init| && KeyOf(init[j']) == k;
          assert KeyOf(xs[j']) == k;
        } else {
          assert KeyOf(xs[|xs| - 1]) == k;
        }
      }
      if HasKey(xs, k) {
        var j :| 0 <= j < |xs| && KeyOf(xs[j]) == k;
        if j < |xs| - 1 {
          assert KeyOf(init[j]) == k;
          assert HasKey(kf, k);
          var j' :| 0 <= j' < |kf| && KeyOf(kf[j']) == k;
          assert (kf + tail)[j'] == kf[j'];
        } else if IsFirst(xs, |xs| - 1) {
          assert (kf + tail)[|kf|] == last;
        } else {
          var i :| 0 <= i < |xs| - 1 && KeyOf(xs[i]) == KeyOf(last);
          assert KeyOf(init[i]) == k;
          assert HasKey(kf, k);
          var j' :| 0 <= j' < |kf| && KeyOf(kf[j']) == k;
          assert (kf + tail)[j'] == kf[j'];
        }
      }
    }
  }

  /** The left-to-right pass computes the reference. */
  lemma {:induction false} DedupFromKeepsFirsts(xs: seq<Item>, k: nat)
    requires k <= |xs|
    ensures DedupFrom(xs[k..], KeepFirsts(xs[..k])) == KeepFirsts(xs)
    decreases |xs| - k
  {
    if k == |xs| {
      assert xs[..k] == xs;
    } else {
      var kept := KeepFirsts(xs[..k]);
      var x := xs[k];
      KeepFirstsKeys(xs[..k], KeyOf(x));
      var pre := xs[..k + 1];
      assert pre[..|pre| - 1] == xs[..k];
      assert IsFirst(pre, k) <==> !HasKey(xs[..k], KeyOf(x)) by {
        if !IsFirst(pre, k) {
          var j :| 0 <= j < k && KeyOf(pre[j]) == KeyOf(pre[k]);
          assert KeyOf(xs[..k][j]) == KeyOf(x);
        }
      }
      assert KeepFirsts(pre) == (if HasKey(kept, KeyOf(x)) then kept else kept + [x]);
      assert xs[k..][1..] == xs[k + 1..];
      DedupFromKeepsFirsts(xs, k + 1);
    }
  }

  /** The de-duplicated list: the first item of each (title, subtitle)
      key, in order of first appearance; no key twice; no key lost. */
  lemma DedupSpec(xs: seq<Item>)
    ensures Dedup(xs) == KeepFirsts(xs)
    ensures forall k :: HasKey(Dedup(xs), k) <==> HasKey(xs, k)
    ensures forall i, j :: 0 <= i < j < |Dedup(xs)| ==> KeyOf(Dedup(xs)[i]) != KeyOf(Dedup(xs)[j])
  {
    DedupFromKeepsFirsts(xs, 0);
    assert xs[0..] == xs && xs[..0] == [];
    forall k {
      KeepFirstsKeys(xs, k);
    }
    KeepFirstsDistinct(xs);
  }

  lemma {:induction false} KeepFirstsDistinct(xs: seq<Item>)
    ensures forall i, j :: 0 <= i < j < |KeepFirsts(xs)| ==> KeyOf(KeepFirsts(xs)[i]) != KeyOf(KeepFirsts(xs)[j])
    decreases |xs|
  {
    if xs != [] {
      var init := xs[..|xs| - 1];
      var last := xs[|xs| - 1];
      KeepFirstsDistinct(init);
      var kf := KeepFirsts(init);
      if IsFirst(xs, |xs| - 1) {
        KeepFirstsKeys(init, KeyOf(last));
        assert !HasKey(init, KeyOf(last));
        var r := kf + [last];
        forall i, j | 0 <= i < j < |r|
          ensures KeyOf(r[i]) != KeyOf(r[j])
        {
          if j == |kf| {
            assert r[i] == kf[i];
          } else {
            assert r[i] == kf[i] && r[j] == kf[j];
          }
        }
      } else {
        assert KeepFirsts(xs) == kf;
      }
    }
  }

  // ---------------------------------------------------------------------
  // GetItems
  // ---------------------------------------------------------------------

  const ReadmeHint: string := "Press enter or click to see how to fix this issue"

  /** `GetItems`: nothing for an empty search; the configuration error, if
      the conversion API setting is rejected (`apiError`); otherwise the
      parsed query's items, de-duplicated. */
  function GetItems(ctx: Context, seps: Separators, search: string, apiError: Option<string>,
                    m: Option<QueryMatch>, cache: Cache): (r: Conversion)
    requires m.Some? ==> Matches(Trim(search), m.value, seps)
    requires m.None? ==> forall q :: !Matches(Trim(search), q, seps)
    ensures search == [] ==> r == Conversion([], cache, [])
    ensures search != [] && apiError.Some? ==>
      r == Conversion([Item(apiError.value, ReadmeHint, OpenReadme)], cache, [])
    ensures apiError.None? && (forall q :: !Matches(Trim(search), q, seps)) ==> r == Conversion([], cache, [])
  {
    if |search| == 0 then Conversion([], cache, [])
    else if apiError.Some? then Conversion([Item(apiError.value, ReadmeHint, OpenReadme)], cache, [])
    else
      var p := ParseQuery(ctx, seps, search, m, cache);
      Conversion(Dedup(p.items), p.cache, p.calls)
  }

  /** With a usable configuration the page shows the parsed items with
      repeated (title, subtitle) keys dropped, first occurrence kept. */
  lemma GetItemsDeduplicates(ctx: Context, seps: Separators, search: string, m: Option<QueryMatch>, cache: Cache)
    requires search != []
    requires m.Some? ==> Matches(Trim(search), m.value, seps)
    requires m.None? ==> forall q :: !Matches(Trim(search), q, seps)
    ensures var p := ParseQuery(ctx, seps, search, m, cache);
      var r := GetItems(ctx, seps, search, None, m, cache);
      && r.items == KeepFirsts(p.items)
      && (forall k :: HasKey(r.items, k) <==> HasKey(p.items, k))
      && (forall i, j :: 0 <= i < j < |r.items| ==> KeyOf(r.items[i]) != KeyOf(r.items[j]))
  {
    DedupSpec(ParseQuery(ctx, seps, search, m, cache).items);
  }
}

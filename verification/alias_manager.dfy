/** The alias store: a case-sensitive map from alias to currency code held
    in memory. Reading and writing the alias file is left to the caller;
    what the file holds arrives here as a list of (alias, currency) rows. */
module AliasManager {

  import opened Results
  import opened Chars

  type Aliases = map<string, string>

  // ---------------------------------------------------------------------
  // Key validation
  // ---------------------------------------------------------------------

  /** Length of the longest run of `[\p{L}\p{Sc}_]` characters starting at
      `i`: what the greedy `[\p{L}\p{Sc}_]*` consumes there. Validation
      reads only whether a match exists; this names the match the engine
      reports (the leftmost, greedy one) in `KeyPatternAlwaysFound`. */
  function TokenRun(s: string, i: nat): (n: nat)
    requires i <= |s|
    ensures i + n <= |s|
    ensures forall j :: i <= j < i + n ==> IsTokenChar(s[j])
    ensures i + n < |s| ==> !IsTokenChar(s[i + n])
    decreases |s| - i
  {
    if i < |s| && IsTokenChar(s[i]) then 1 + TokenRun(s, i + 1) else 0
  }

  /** `[\p{L}\p{Sc}_]*` matches the `n` characters of `s` from `i`. */
  predicate KeyPatternMatchesAt(s: string, i: nat, n: nat) {
    i + n <= |s| && forall j :: i <= j < i + n ==> IsTokenChar(s[j])
  }

  /** `Regex.Match(s, KeyRegex).Success`: the pattern is unanchored, so it
      succeeds when it matches anywhere in `s`. */
  predicate KeyPatternFound(s: string) {
    exists i: nat, n: nat | i <= |s| && n <= |s| - i :: KeyPatternMatchesAt(s, i, n)
  }

  /** `ValidateKeyFormat`: not null, not white space only, and the key
      pattern is found in it. */
  predicate ValidateKeyFormat(key: Option<string>) {
    !IsNullOrWhiteSpace(key) && KeyPatternFound(key.value)
  }

  /** The pattern matches the greedy run at the very start of every text
      (possibly empty), so it rejects nothing. */
  lemma KeyPatternAlwaysFound(s: string)
    ensures KeyPatternMatchesAt(s, 0, TokenRun(s, 0))
    ensures KeyPatternFound(s)
  {
    assert KeyPatternMatchesAt(s, 0, 0);
  }

  /** A key is accepted exactly when it is present and holds a character
      that is not white space; "a b!" and "12" are accepted. */
  lemma ValidateKeyFormatMeansNotBlank(key: Option<string>)
    ensures ValidateKeyFormat(key) <==>
      key.Some? && HasNonWhiteSpace(key.value)
  {
    if key.Some? {
      KeyPatternAlwaysFound(key.value);
    }
  }

  // ---------------------------------------------------------------------
  // Lookup and update
  // ---------------------------------------------------------------------

  /** `HasAlias`: the key is stored, compared case-sensitively. */
  predicate HasAlias(aliases: Aliases, code: string) {
    code in aliases
  }

  /** `GetAlias`: the stored currency, or null. */
  function GetAlias(aliases: Aliases, code: string): (r: Option<string>)
    ensures r.Some? <==> HasAlias(aliases, code)
    ensures r.Some? ==> r.value == aliases[code]
  {
    if code in aliases then Some(aliases[code]) else None
  }

  /** In-memory effect of `SetAliasAsync`. */
  function SetAlias(aliases: Aliases, code: string, alias: string): (r: Aliases)
    ensures GetAlias(r, code) == Some(alias)
    ensures forall k :: k != code ==> GetAlias(r, k) == GetAlias(aliases, k)
  {
    aliases[code := alias]
  }

  /** In-memory effect of `RemoveAliasAsync`, and whether the file is
      rewritten (only when something was removed). */
  function RemoveAlias(aliases: Aliases, code: string): (r: (Aliases, bool))
    ensures !HasAlias(r.0, code)
    ensures forall k :: k != code ==> GetAlias(r.0, k) == GetAlias(aliases, k)
    ensures r.1 <==> HasAlias(aliases, code)
  {
    if code in aliases then (aliases - {code}, true) else (aliases, false)
  }

  /** Keys that differ only in case are separate entries. */
  lemma KeysAreCaseSensitive()
    ensures var m := SetAlias(map[], "usd", "dollar");
      HasAlias(m, "usd") && !HasAlias(m, "USD") && GetAlias(m, "USD").None?
  {
    assert "usd" != "USD";
  }

  // ---------------------------------------------------------------------
  // Loading
  // ---------------------------------------------------------------------

  /** The merge loop of `LoadAliasesAsync`: each row read overwrites its
      key; the map is never cleared. */
  function LoadAliases(aliases: Aliases, rows: seq<(string, string)>): (r: Aliases)
    ensures aliases.Keys <= r.Keys
    decreases |rows|
  {
    if rows == [] then aliases
    else LoadAliases(aliases[rows[0].0 := rows[0].1], rows[1..])
  }

  /** Reference reading of the rows: the value of the last row for `k`. */
  function LastValue(rows: seq<(string, string)>, k: string): Option<string>
    decreases |rows|
  {
    if rows == [] then None
    else if rows[|rows| - 1].0 == k then Some(rows[|rows| - 1].1)
    else LastValue(rows[..|rows| - 1], k)
  }

  lemma {:induction false} LoadAppend(aliases: Aliases, rows: seq<(string, string)>, x: (string, string))
    ensures LoadAliases(aliases, rows + [x]) == LoadAliases(aliases, rows)[x.0 := x.1]
    decreases |rows|
  {
    if rows == [] {
      assert rows + [x] == [x];
    } else {
      assert (rows + [x])[1..] == rows[1..] + [x];
      LoadAppend(aliases[rows[0].0 := rows[0].1], rows[1..], x);
    }
  }

  /** Loading is a merge: a key read from the file takes the file's value;
      every other key keeps its current value. */
  lemma {:induction false} LoadMerges(aliases: Aliases, rows: seq<(string, string)>, k: string)
    ensures match LastValue(rows, k)
      case Some(v) => GetAlias(LoadAliases(aliases, rows), k) == Some(v)
      case None => GetAlias(LoadAliases(aliases, rows), k) == GetAlias(aliases, k)
    decreases |rows|
  {
    if rows != [] {
      var init := rows[..|rows| - 1];
      var x := rows[|rows| - 1];
      assert rows == init + [x];
      LoadAppend(aliases, init, x);
      LoadMerges(aliases, init, k);
    }
  }

  /** `ResetToDefaultAsync`: the default file is copied over the alias file
      and loaded into the current map. */
  function ResetToDefault(aliases: Aliases, defaults: seq<(string, string)>): (r: Aliases)
    ensures aliases.Keys <= r.Keys
  {
    LoadAliases(aliases, defaults)
  }

  /** A reset restores every default alias but, since nothing is cleared,
      also keeps the user's own aliases that the defaults do not name. */
  lemma ResetKeepsUserAliases(aliases: Aliases, defaults: seq<(string, string)>, k: string)
    ensures LastValue(defaults, k).Some? ==>
      GetAlias(ResetToDefault(aliases, defaults), k) == LastValue(defaults, k)
    ensures LastValue(defaults, k).None? ==>
      GetAlias(ResetToDefault(aliases, defaults), k) == GetAlias(aliases, k)
  {
    LoadMerges(aliases, defaults, k);
  }
}

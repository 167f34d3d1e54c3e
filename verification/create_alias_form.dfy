/** The create-alias form: the ordered validation of a submitted
    (alias, currency) pair and the single insertion into the alias store
    that ends it. */
module CreateAliasForm {

  import opened Results
  import opened Chars
  import opened AliasManager

  /** The submitted payload after JSON parsing: not JSON at all (or not an
      object), the literal `null`, or an object whose `alias` and
      `currency` members may be missing. */
  datatype Payload = Malformed | JsonNull | Fields(alias: Option<string>, currency: Option<string>)

  /** What the palette does after a submission. */
  datatype CommandResult = KeepOpen | Dismiss | GoHome | GoBack | Hide

  /** The status message shown. */
  datatype Toast = Required | AliasKeyInvalid | AliasExists | CurrencyKeyInvalid | Created(alias: string, currency: string)

  function ToastText(t: Toast): string {
    match t
    case Required => "Alias and currency are required"
    case AliasKeyInvalid => "Alias Key is invalid"
    case AliasExists => "Alias already exists"
    case CurrencyKeyInvalid => "Currency Key is invalid"
    case Created(a, c) => "Alias '" + a + "' => '" + c + "' created"
  }

  /** Outcome of a submission: the command result (None when the parse
      exception escapes), the toast shown, and the alias map afterwards. */
  datatype Submission = Submission(result: Option<CommandResult>, toast: Option<Toast>, aliases: Aliases)

  /** `SubmitForm`. */
  function SubmitForm(aliases: Aliases, payload: Payload): (r: Submission)
    ensures r.result.Some? ==> r.result.value == KeepOpen
    ensures r.result.None? <==> payload.Malformed?
    ensures r.aliases == aliases || (r.toast.Some? && r.toast.value.Created?)
    ensures r.toast.Some? && r.toast.value.Created? ==>
      r.aliases == SetAlias(aliases, r.toast.value.alias, r.toast.value.currency)
  {
    match payload
    case Malformed => Submission(None, None, aliases)
    case JsonNull => Submission(Some(KeepOpen), None, aliases)
    case Fields(alias, currency) =>
      if IsNullOrEmpty(alias) || IsNullOrEmpty(currency) then
        Submission(Some(KeepOpen), Some(Required), aliases)
      else if !ValidateKeyFormat(alias) then
        Submission(Some(KeepOpen), Some(AliasKeyInvalid), aliases)
      else if GetAlias(aliases, alias.value).Some? then
        Submission(Some(KeepOpen), Some(AliasExists), aliases)
      else if !ValidateKeyFormat(currency) then
        Submission(Some(KeepOpen), Some(CurrencyKeyInvalid), aliases)
      else
        var updated := SetAlias(aliases, alias.value, currency.value);
        Submission(Some(KeepOpen), Some(Created(alias.value, currency.value)), updated)
  }

  /** The checks run in a fixed order and the first one that fails decides
      the message, whatever the later checks would say. */
  lemma ChecksInOrder(aliases: Aliases, alias: Option<string>, currency: Option<string>)
    ensures var r := SubmitForm(aliases, Fields(alias, currency));
      && (IsNullOrEmpty(alias) || IsNullOrEmpty(currency) ==> r.toast == Some(Required))
      && (!IsNullOrEmpty(alias) && !IsNullOrEmpty(currency) && !HasNonWhiteSpace(alias.value) ==>
            r.toast == Some(AliasKeyInvalid))
      && (!IsNullOrEmpty(currency) && alias.Some? && HasNonWhiteSpace(alias.value) && HasAlias(aliases, alias.value) ==>
            r.toast == Some(AliasExists))
      && (alias.Some? && HasNonWhiteSpace(alias.value) && !HasAlias(aliases, alias.value) &&
          !IsNullOrEmpty(currency) && !HasNonWhiteSpace(currency.value) ==>
            r.toast == Some(CurrencyKeyInvalid))
  {
    ValidateKeyFormatMeansNotBlank(alias);
    ValidateKeyFormatMeansNotBlank(currency);
  }

  /** A submission creates an alias exactly when both fields hold a
      non-white-space character and the alias is not yet a key; it then
      adds that one entry and changes nothing else. */
  lemma CreatedExactlyWhen(aliases: Aliases, payload: Payload)
    ensures var r := SubmitForm(aliases, payload);
      (r.toast.Some? && r.toast.value.Created?) <==>
        (payload.Fields? && payload.alias.Some? && payload.currency.Some?
         && HasNonWhiteSpace(payload.alias.value) && HasNonWhiteSpace(payload.currency.value)
         && !HasAlias(aliases, payload.alias.value))
    ensures var r := SubmitForm(aliases, payload);
      r.toast.Some? && r.toast.value.Created? ==>
        && r.toast.value == Created(payload.alias.value, payload.currency.value)
        && r.aliases.Keys == aliases.Keys + {payload.alias.value}
        && r.aliases[payload.alias.value] == payload.currency.value
        && forall k :: k in aliases ==> r.aliases[k] == aliases[k]
  {
    if payload.Fields? {
      ValidateKeyFormatMeansNotBlank(payload.alias);
      ValidateKeyFormatMeansNotBlank(payload.currency);
    }
  }

  /** An alias that is already stored is never overwritten. */
  lemma ExistingAliasKept(aliases: Aliases, alias: string, currency: Option<string>)
    requires HasAlias(aliases, alias)
    ensures SubmitForm(aliases, Fields(Some(alias), currency)).aliases == aliases
  {
  }
}

/** The response handling of the organization service: cleaning the loosely
    typed security observations of an organization, copying the other
    fields, and turning GraphQL responses into a value or an error message.
    The HTTP calls themselves are not modelled; each operation receives the
    decoded response body. */
module Organizations {
  import opened Wrappers
  import opened Text
  import opened Json

  /** Safety-standard name to its observations. */
  type SecurityObservations = map<string, seq<string>>

  /** An organization as the GraphQL response delivers it; a missing
      `securityObs` is represented by `JNull`. */
  datatype ApiOrganization = ApiOrganization(
    id: string,
    name: string,
    pilots: real,
    flightHours: real,
    airships: real,
    prompt: string,
    securityObs: Json,
    generalObs: string)

  /** An organization as the application keeps it: the fields the service
      actually produces, which differ from the `Organization` interface it
      is declared to return. */
  datatype Organization = Organization(
    id: string,
    name: string,
    pilots: real,
    flightHours: real,
    airships: real,
    prompt: string,
    generalObs: string,
    securityObs: SecurityObservations)

  /** A non-empty string with no whitespace at either end. */
  predicate IsCleanText(s: string) {
    s != [] && IsTrimmed(s)
  }

  /** Every key and every listed value is clean text, and no list is empty. */
  predicate WellFormed(observations: SecurityObservations) {
    forall key :: key in observations ==>
      && IsCleanText(key)
      && observations[key] != []
      && forall x :: x in observations[key] ==> IsCleanText(x)
  }

  /** Clean text is what trimming leaves of it, and it is not blank. */
  lemma CleanTextIsTrimFixpoint(s: string)
    requires IsCleanText(s)
    ensures Trim(s) == s && !IsBlank(s)
  {
    TrimOfTrimmed(s);
  }

  /** `.filter(item => typeof item === 'string' && item.trim().length > 0)
      .map(item => item.trim())` on an array value. */
  function StringItems(items: seq<Json>): (r: seq<string>)
    ensures |r| <= |items|
    ensures forall x :: x in r ==> IsCleanText(x)
  {
    if items == [] then []
    else
      var rest := StringItems(items[1..]);
      if items[0].JStr? && !IsBlank(items[0].s) then [Trim(items[0].s)] + rest else rest
  }

  /** A kept element: a string that is not blank. */
  predicate KeptItem(item: Json) {
    item.JStr? && !IsBlank(item.s)
  }

  /** The kept elements are the trimmed non-blank strings of the array... */
  lemma {:induction false} StringItemsMembers(items: seq<Json>, x: string)
    ensures x in StringItems(items) <==> exists i :: 0 <= i < |items| && KeptItem(items[i]) && Trim(items[i].s) == x
  {
    if items != [] {
      StringItemsMembers(items[1..], x);
      if x in StringItems(items[1..]) {
        var i :| 0 <= i < |items[1..]| && KeptItem(items[1..][i]) && Trim(items[1..][i].s) == x;
        assert items[i + 1] == items[1..][i];
      }
      if exists i :: 0 <= i < |items| && KeptItem(items[i]) && Trim(items[i].s) == x {
        var i :| 0 <= i < |items| && KeptItem(items[i]) && Trim(items[i].s) == x;
        if i > 0 { assert items[1..][i - 1] == items[i]; }
      }
    }
  }

  /** ...and they keep their original order. */
  lemma {:induction false} StringItemsConcat(a: seq<Json>, b: seq<Json>)
    ensures StringItems(a + b) == StringItems(a) + StringItems(b)
  {
    if a != [] {
      assert (a + b)[1..] == a[1..] + b;
      StringItemsConcat(a[1..], b);
    } else {
      assert a + b == b;
    }
  }

  /** The list a raw observation value contributes: the kept elements of an
      array, the trimmed form of a non-blank string, and nothing otherwise. */
  function EntryValues(rawValue: Json): (values: seq<string>)
    ensures forall x :: x in values ==> IsCleanText(x)
  {
    if rawValue.JArr? then StringItems(rawValue.items)
    else if rawValue.JStr? && !IsBlank(rawValue.s) then [Trim(rawValue.s)]
    else []
  }

  /** Entry `entry` stores a list under `key`. */
  predicate Stores(entry: (string, Json), key: string) {
    Trim(entry.0) == key && key != "" && EntryValues(entry.1) != []
  }

  /** The observations after the `forEach` has visited `entries` in order:
      each entry with a clean key and a non-empty list overwrites what an
      earlier entry stored under the same key, so there are never more keys
      than entries. A `__proto__` key is stored like any other;
      `CollectAsWritten` is what the assignment actually does with it. */
  function Collect(entries: seq<(string, Json)>): (m: SecurityObservations)
    ensures |m| <= |entries|
  {
    if entries == [] then map[]
    else
      var m := Collect(entries[..|entries| - 1]);
      var key := Trim(entries[|entries| - 1].0);
      var values := EntryValues(entries[|entries| - 1].1);
      if key != "" && values != [] then m[key := values] else m
  }

  /** What `normalizeSecurityObservations` returns for `raw`, with `parse`
      standing in for `JSON.parse`. */
  function Normalized(raw: Json, parse: Parser): (observations: SecurityObservations)
    ensures WellFormed(observations)
  {
    if !Truthy(raw) then map[]
    else
      var parsed := if raw.JStr? then parse(raw.s) else Some(raw);
      if parsed.Some? && parsed.value.JObj?
      then CollectWellFormed(parsed.value.entries); Collect(parsed.value.entries)
      else map[]
  }

  /** Only clean keys with non-empty lists of clean values are collected. */
  lemma {:induction false} CollectWellFormed(entries: seq<(string, Json)>)
    ensures WellFormed(Collect(entries))
  {
    if entries != [] {
      CollectWellFormed(entries[..|entries| - 1]);
      var key := Trim(entries[|entries| - 1].0);
      assert key != "" ==> IsCleanText(key);
    }
  }

  /** One more entry: `Collect` of the longer prefix stores that entry's
      list, when its key and list are non-empty, over the shorter one. */
  lemma CollectPrefixStep(entries: seq<(string, Json)>, i: nat, key: string, values: seq<string>)
    requires i < |entries| && key == Trim(entries[i].0) && values == EntryValues(entries[i].1)
    ensures key != "" && values != [] ==> Collect(entries[..i + 1]) == Collect(entries[..i])[key := values]
    ensures key == "" || values == [] ==> Collect(entries[..i + 1]) == Collect(entries[..i])
  {
    assert entries[..i + 1][..i] == entries[..i];
  }

  /** `normalizeSecurityObservations`. */
  method NormalizeSecurityObservations(raw: Json, parse: Parser) returns (observations: SecurityObservations)
    ensures observations == Normalized(raw, parse)
  {
    if !Truthy(raw) {
      return map[];
    }
    var parsed := raw;
    if raw.JStr? {
      match parse(raw.s)
      case None =>
        return map[];
      case Some(j) =>
        parsed := j;
    }
    if !Truthy(parsed) || !(parsed.JObj? || parsed.JArr?) || parsed.JArr? {
      return map[];
    }
    observations := CollectEntries(parsed.entries);
  }

  /** The callback's `values`: the kept elements of an array, then a
      non-blank string trimmed, and nothing otherwise. */
  method EntryValuesOf(rawValue: Json) returns (values: seq<string>)
    ensures values == EntryValues(rawValue)
  {
    values := [];
    if rawValue.JArr? {
      values := StringItems(rawValue.items);
    } else if rawValue.JStr? && !IsBlank(rawValue.s) {
      values := [Trim(rawValue.s)];
    }
  }

  /** The `forEach` over `Object.entries(parsed)`: it stores, entry by
      entry, the list of each clean key whose list is non-empty. */
  method CollectEntries(entries: seq<(string, Json)>) returns (observations: SecurityObservations)
    ensures observations == Collect(entries)
  {
    observations := map[];
    for i := 0 to |entries|
      invariant observations == Collect(entries[..i])
    {
      var (rawKey, rawValue) := entries[i];
      var key := Trim(rawKey);
      if key != "" {
        var values := EntryValuesOf(rawValue);
        CollectPrefixStep(entries, i, key, values);
        if |values| > 0 {
          observations := observations[key := values];
        }
      } else {
        CollectPrefixStep(entries, i, key, EntryValues(rawValue));
      }
    }
    assert entries[..|entries|] == entries;
  }

  /** The one key whose assignment `observations[key] = values` creates no
      entry: on a plain object it runs the inherited `__proto__` setter,
      which makes the stored list the object's prototype. */
  const ProtoKey: string := "__proto__"

  /** The `forEach` as it behaves on a plain object: like `Collect`, except
      that a list for `__proto__` replaces the prototype instead of becoming
      an own entry, so `Object.entries` and lookups no longer see it. */
  function CollectAsWritten(entries: seq<(string, Json)>): (m: SecurityObservations)
    ensures ProtoKey !in m
  {
    if entries == [] then map[]
    else
      var m := CollectAsWritten(entries[..|entries| - 1]);
      var key := Trim(entries[|entries| - 1].0);
      var values := EntryValues(entries[|entries| - 1].1);
      if key != "" && key != ProtoKey && values != [] then m[key := values] else m
  }

  /** The code loses exactly the `__proto__` entry and keeps every other
      entry as `Collect` does. */
  lemma {:induction false} CollectAsWrittenLosesProtoKey(entries: seq<(string, Json)>)
    ensures CollectAsWritten(entries) == Collect(entries) - {ProtoKey}
  {
    if entries != [] {
      CollectAsWrittenLosesProtoKey(entries[..|entries| - 1]);
    }
  }

  /** `{"__proto__": ["x"]}`: the intended observations hold the entry, the
      code's hold nothing. */
  lemma ProtoKeyEntryLost()
    ensures Collect([(ProtoKey, JArr([JStr("x")]))]) == map[ProtoKey := ["x"]]
    ensures CollectAsWritten([(ProtoKey, JArr([JStr("x")]))]) == map[]
  {
    CleanTextIsTrimFixpoint(ProtoKey);
    CleanTextIsTrimFixpoint("x");
    var entries := [(ProtoKey, JArr([JStr("x")]))];
    assert entries[..0] == [];
    assert StringItems([JStr("x")][1..]) == [];
    assert EntryValues(JArr([JStr("x")])) == ["x"];
    assert Collect(entries) == Collect(entries[..0])[ProtoKey := ["x"]];
  }

  /** One more entry adds its key exactly when it stores under it. */
  lemma CollectStep(entries: seq<(string, Json)>, key: string)
    requires entries != []
    ensures key in Collect(entries) <==>
              key in Collect(entries[..|entries| - 1]) || Stores(entries[|entries| - 1], key)
  {
  }

  /** A key is present only when some entry stores a list under it... */
  lemma {:induction false} CollectKeysSound(entries: seq<(string, Json)>, key: string)
    requires key in Collect(entries)
    ensures exists i :: 0 <= i < |entries| && Stores(entries[i], key)
  {
    var n := |entries| - 1;
    CollectStep(entries, key);
    if !Stores(entries[n], key) {
      var init := entries[..n];
      CollectKeysSound(init, key);
      var i :| 0 <= i < |init| && Stores(init[i], key);
      assert entries[i] == init[i];
    }
  }

  /** ...and every key some entry stores under is present. */
  lemma {:induction false} CollectKeysComplete(entries: seq<(string, Json)>, i: nat, key: string)
    requires i < |entries| && Stores(entries[i], key)
    ensures key in Collect(entries)
  {
    var n := |entries| - 1;
    var init := entries[..n];
    CollectStep(entries, key);
    if i < n {
      assert init[i] == entries[i];
      assert Stores(init[i], key);
      CollectKeysComplete(init, i, key);
      assert key in Collect(init);
    } else {
      assert i == n;
      assert Stores(entries[n], key);
    }
  }

  /** A key is present exactly when some entry stores a list under it. */
  lemma CollectKeys(entries: seq<(string, Json)>, key: string)
    ensures key in Collect(entries) <==> exists i :: 0 <= i < |entries| && Stores(entries[i], key)
  {
    if key in Collect(entries) {
      CollectKeysSound(entries, key);
    }
    if exists i :: 0 <= i < |entries| && Stores(entries[i], key) {
      var i :| 0 <= i < |entries| && Stores(entries[i], key);
      CollectKeysComplete(entries, i, key);
    }
  }

  /** The list under a key is the one of the last entry that stores under it:
      a later entry whose key trims to the same key replaces an earlier list,
      while a later entry with nothing to store leaves it in place. */
  lemma {:induction false} CollectLastWins(entries: seq<(string, Json)>, i: nat, key: string)
    requires i < |entries| && Stores(entries[i], key)
    requires forall j :: i < j < |entries| ==> !Stores(entries[j], key)
    ensures key in Collect(entries) && Collect(entries)[key] == EntryValues(entries[i].1)
  {
    var init := entries[..|entries| - 1];
    if i < |entries| - 1 {
      forall j | i < j < |init| ensures !Stores(init[j], key) {
        assert init[j] == entries[j];
      }
      assert init[i] == entries[i];
      CollectLastWins(init, i, key);
      assert !Stores(entries[|entries| - 1], key);
    }
  }

  /** A null, missing, empty-string or other falsy value, a string that does
      not parse, and anything that is not a plain object all give `{}`. */
  lemma NormalizedRejects(raw: Json, parse: Parser)
    ensures !Truthy(raw) ==> Normalized(raw, parse) == map[]
    ensures raw.JStr? && parse(raw.s).None? ==> Normalized(raw, parse) == map[]
    ensures raw.JStr? && parse(raw.s).Some? && !parse(raw.s).value.JObj? ==> Normalized(raw, parse) == map[]
    ensures !raw.JStr? && !raw.JObj? ==> Normalized(raw, parse) == map[]
  {
  }

  /** An object delivered as is and the same object delivered as JSON text
      are cleaned the same way. */
  lemma NormalizedTextOrObject(text: string, entries: seq<(string, Json)>, parse: Parser)
    requires text != "" && parse(text) == Some(JObj(entries))
    ensures Normalized(JStr(text), parse) == Normalized(JObj(entries), parse)
  {
  }

  /** `transformOrganization`: every field but `securityObs` is copied, and
      `securityObs` is replaced by its cleaned, well-formed form. */
  function TransformOrganization(apiOrg: ApiOrganization, parse: Parser): (org: Organization)
    ensures org.id == apiOrg.id && org.name == apiOrg.name && org.pilots == apiOrg.pilots
    ensures org.flightHours == apiOrg.flightHours && org.airships == apiOrg.airships
    ensures org.prompt == apiOrg.prompt && org.generalObs == apiOrg.generalObs
    ensures org.securityObs == Normalized(apiOrg.securityObs, parse)
    ensures WellFormed(org.securityObs)
  {
    Organization(apiOrg.id, apiOrg.name, apiOrg.pilots, apiOrg.flightHours, apiOrg.airships,
                 apiOrg.prompt, apiOrg.generalObs, Normalized(apiOrg.securityObs, parse))
  }

  // ---------------------------------------------------------------------
  // GraphQL responses

  datatype GraphQLError = GraphQLError(message: Option<string>)

  /** `errors.map(e => e.message).filter(Boolean)`: the non-empty messages,
      in order. */
  function ErrorMessages(errors: seq<GraphQLError>): (r: seq<string>)
    ensures forall x :: x in r ==> x != ""
  {
    if errors == [] then []
    else
      var rest := ErrorMessages(errors[1..]);
      if errors[0].message.Some? && errors[0].message.value != "" then [errors[0].message.value] + rest else rest
  }

  /** The messages kept are exactly the non-empty ones some error carries. */
  lemma {:induction false} ErrorMessagesMembers(errors: seq<GraphQLError>, x: string)
    ensures x in ErrorMessages(errors) <==>
              x != "" && exists i :: 0 <= i < |errors| && errors[i].message == Some(x)
  {
    if errors != [] {
      ErrorMessagesMembers(errors[1..], x);
      if exists i :: 0 <= i < |errors[1..]| && errors[1..][i].message == Some(x) {
        var i :| 0 <= i < |errors[1..]| && errors[1..][i].message == Some(x);
        assert errors[i + 1] == errors[1..][i];
      }
      if exists i :: 0 <= i < |errors| && errors[i].message == Some(x) {
        var i :| 0 <= i < |errors| && errors[i].message == Some(x);
        if i > 0 { assert errors[1..][i - 1] == errors[i]; }
      }
    }
  }

  /** The messages of two runs of errors are those of the first, then those
      of the second. */
  lemma {:induction false} ErrorMessagesConcat(a: seq<GraphQLError>, b: seq<GraphQLError>)
    ensures ErrorMessages(a + b) == ErrorMessages(a) + ErrorMessages(b)
  {
    if a != [] {
      assert (a + b)[0] == a[0];
      assert (a + b)[1..] == a[1..] + b;
      ErrorMessagesConcat(a[1..], b);
      if a[0].message.Some? && a[0].message.value != "" {
        var x, y, z := [a[0].message.value], ErrorMessages(a[1..]), ErrorMessages(b);
        assert x + y + z == x + (y + z);
      }
    } else {
      assert a + b == b;
    }
  }

  /** Joining non-empty messages gives a non-empty string holding each. */
  lemma JoinedMessages(messages: seq<string>, sep: string)
    requires forall x :: x in messages ==> x != ""
    ensures messages != [] ==> Join(messages, sep) != ""
    ensures forall x :: x in messages ==> IsInfix(x, Join(messages, sep))
  {
    if messages != [] {
      assert messages[0] in messages;
    }
    forall x | x in messages ensures IsInfix(x, Join(messages, sep)) {
      var k :| 0 <= k < |messages| && messages[k] == x;
      JoinHasPart(messages, sep, k);
    }
  }

  /** `message || fallback` with `message` the non-empty messages joined by
      `" | "`: the fallback exactly when no error has a non-empty message;
      otherwise the joined messages, so every such message is part of it. */
  function ErrorMessage(errors: seq<GraphQLError>, fallback: string): (msg: string)
    ensures ErrorMessages(errors) == [] ==> msg == fallback
    ensures ErrorMessages(errors) != [] ==> msg == Join(ErrorMessages(errors), " | ")
    ensures forall x :: x in ErrorMessages(errors) ==> IsInfix(x, msg)
  {
    var messages := ErrorMessages(errors);
    var joined := Join(messages, " | ");
    JoinedMessages(messages, " | ");
    if joined != "" then joined else fallback
  }

  const FetchFallback: string := "Erro ao buscar organizações."
  const UpdateFallback: string := "Erro ao atualizar prompt da organização."
  const InvalidUpdateResponse: string := "Resposta inválida ao atualizar prompt da organização."

  /** `errors && errors.length > 0`. */
  predicate HasErrors(errors: Option<seq<GraphQLError>>) {
    errors.Some? && |errors.value| > 0
  }

  datatype OrganizationsData = OrganizationsData(organizations: Option<seq<ApiOrganization>>)
  datatype OrganizationsResponse = OrganizationsResponse(
    data: Option<OrganizationsData>,
    errors: Option<seq<GraphQLError>>)

  /** `data?.organizations ?? []`. */
  function ListedOrganizations(response: OrganizationsResponse): seq<ApiOrganization> {
    if response.data.Some? && response.data.value.organizations.Some?
    then response.data.value.organizations.value
    else []
  }

  /** The response handling of `fetchOrganizations`: a non-empty `errors`
      list fails with the joined messages (or the fixed fallback); otherwise
      every listed organization is transformed, in order, and a missing list
      gives none. */
  function FetchOrganizationsResult(response: OrganizationsResponse, parse: Parser)
    : (r: Result<seq<Organization>, string>)
    ensures r.Failure? <==> HasErrors(response.errors)
    ensures r.Failure? ==> r.error == ErrorMessage(response.errors.value, FetchFallback)
    ensures r.Success? ==> |r.value| == |ListedOrganizations(response)|
    ensures r.Success? ==> forall i :: 0 <= i < |r.value| ==>
              r.value[i] == TransformOrganization(ListedOrganizations(response)[i], parse)
  {
    if HasErrors(response.errors) then Failure(ErrorMessage(response.errors.value, FetchFallback))
    else
      var orgs := ListedOrganizations(response);
      Success(seq(|orgs|, i requires 0 <= i < |orgs| => TransformOrganization(orgs[i], parse)))
  }

  datatype UpdatedOrganization = UpdatedOrganization(id: Json, prompt: Json)
  datatype UpdatePromptData = UpdatePromptData(updateOrganizationPrompt: Option<UpdatedOrganization>)
  datatype UpdatePromptResponse = UpdatePromptResponse(
    data: Option<UpdatePromptData>,
    errors: Option<seq<GraphQLError>>)

  /** `data?.updateOrganizationPrompt?.prompt`. */
  function ReturnedPrompt(response: UpdatePromptResponse): Option<Json> {
    if response.data.Some? && response.data.value.updateOrganizationPrompt.Some?
    then Some(response.data.value.updateOrganizationPrompt.value.prompt)
    else None
  }

  /** The response handling of `updateOrganizationPrompt`: errors first, as
      for the fetch; then success exactly when the returned prompt is a
      string, which is what is returned. */
  function UpdateOrganizationPromptResult(response: UpdatePromptResponse): (r: Result<string, string>)
    ensures r.Success? <==> !HasErrors(response.errors) && ReturnedPrompt(response).Some?
                            && ReturnedPrompt(response).value.JStr?
    ensures r.Success? ==> ReturnedPrompt(response) == Some(JStr(r.value))
    ensures HasErrors(response.errors) ==> r == Failure(ErrorMessage(response.errors.value, UpdateFallback))
    ensures !HasErrors(response.errors) && r.Failure? ==> r.error == InvalidUpdateResponse
  {
    if HasErrors(response.errors) then Failure(ErrorMessage(response.errors.value, UpdateFallback))
    else
      match ReturnedPrompt(response)
      case Some(JStr(p)) => Success(p)
      case _ => Failure(InvalidUpdateResponse)
  }
}

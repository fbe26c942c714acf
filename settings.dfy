/**
 * App and user settings (lib/Service/SettingsService.php) over Nextcloud's
 * key-value config. App values and user values are strings; the user's
 * filter preferences are a JSON object, held here already decoded.
 */
module Settings {
  import opened Common
  import opened Text

  const TalkChatTokenKey := "talk_chat_token"
  const ReminderDays1Key := "reminder_days_1"
  const ReminderDays2Key := "reminder_days_2"
  const EmailReminderKey := "email_reminder"
  const SortByKey := "sort_by"
  const SortDirectionKey := "sort_direction"

  const DefaultReminderDays1 := 14
  const DefaultReminderDays2 := 3
  const DefaultSortBy := "endDate"
  const DefaultSortDirection := "asc"

  const AllowedSortBy := ["endDate", "name", "updatedAt", "cost"]
  const AllowedSortDirection := ["asc", "desc"]
  const AllowedStatuses := ["active", "cancelled", "ended"]
  const AllowedContractTypes := ["", "fixed", "auto_renewal"]

  /**
   * A value as json_decode($json, true) leaves it, as far as the filter rules
   * look at it. With true, a JSON object decodes to a PHP array just as a JSON
   * list does, so JArray stands for any decoded PHP array: a list's items, or
   * an object's values in key order. The keys themselves never matter here,
   * because the statuses are renumbered by array_values.
   */
  datatype Json = JNull | JString(s: string) | JArray(items: seq<Json>) | JOther

  /** The sanitised filter record: vendor, allowed statuses, contract type. */
  datatype Filters = Filters(vendor: string, statuses: seq<string>, contractType: string)

  const DefaultFilters := Filters("", [], "")

  /**
   * The stored filters value: unset (or ''), something json_decode does not
   * make an array of, or an array, given by its string keys (a JSON list at
   * the top has none of the three keys and so has no entries here).
   */
  datatype StoredFilters = Unset | NotArray | Decoded(fields: map<string, Json>)

  /** isset($a[key]): present and not null. */
  predicate IsSet(a: map<string, Json>, key: string)
  {
    key in a && a[key] != JNull
  }

  /**
   * array_values(array_intersect(items, AllowedStatuses)): the items whose
   * string value is an allowed status, duplicates and input order kept.
   * Numbers, booleans, null and arrays never stringify to a status.
   */
  function KeepAllowedStatuses(items: seq<Json>): (r: seq<string>)
    ensures |r| <= |items|
    ensures forall i :: 0 <= i < |r| ==> r[i] in AllowedStatuses
  {
    if items == [] then []
    else
      var rest := KeepAllowedStatuses(items[1..]);
      if items[0].JString? && items[0].s in AllowedStatuses then [items[0].s] + rest else rest
  }

  /** Filtering goes item by item: it distributes over concatenation. */
  lemma {:induction false} KeepAllowedStatusesConcat(a: seq<Json>, b: seq<Json>)
    ensures KeepAllowedStatuses(a + b) == KeepAllowedStatuses(a) + KeepAllowedStatuses(b)
  {
    if a == [] {
      assert a + b == b;
    } else {
      assert (a + b)[1..] == a[1..] + b;
      KeepAllowedStatusesConcat(a[1..], b);
    }
  }

  /** A single item survives exactly when it is an allowed status string. */
  lemma KeepAllowedStatusesOne(x: Json)
    ensures KeepAllowedStatuses([x]) == (if x.JString? && x.s in AllowedStatuses then [x.s] else [])
  {
    assert [x][1..] == [];
  }

  /** The sanitising shared by getUserFilters and setUserFilters. */
  function Sanitize(a: map<string, Json>): (f: Filters)
    ensures f.contractType in AllowedContractTypes
    ensures forall i :: 0 <= i < |f.statuses| ==> f.statuses[i] in AllowedStatuses
    ensures IsSet(a, "vendor") && a["vendor"].JString? ==> f.vendor == a["vendor"].s
    ensures !(IsSet(a, "vendor") && a["vendor"].JString?) ==> f.vendor == ""
    ensures IsSet(a, "statuses") && a["statuses"].JArray? ==> f.statuses == KeepAllowedStatuses(a["statuses"].items)
    ensures !(IsSet(a, "statuses") && a["statuses"].JArray?) ==> f.statuses == []
    ensures IsSet(a, "contractType") && a["contractType"].JString? && a["contractType"].s in AllowedContractTypes
            ==> f.contractType == a["contractType"].s
    ensures !(IsSet(a, "contractType") && a["contractType"].JString? && a["contractType"].s in AllowedContractTypes)
            ==> f.contractType == ""
  {
    Filters(
      if IsSet(a, "vendor") && a["vendor"].JString? then a["vendor"].s else "",
      if IsSet(a, "statuses") && a["statuses"].JArray? then KeepAllowedStatuses(a["statuses"].items)
      else DefaultFilters.statuses,
      if IsSet(a, "contractType") && a["contractType"].JString? && a["contractType"].s in AllowedContractTypes
      then a["contractType"].s else "")
  }

  function StringsToJson(ss: seq<string>): (r: seq<Json>)
    ensures |r| == |ss|
    ensures forall i :: 0 <= i < |ss| ==> r[i] == JString(ss[i])
  {
    if ss == [] then [] else [JString(ss[0])] + StringsToJson(ss[1..])
  }

  /** json_encode of the sanitised record, as json_decode reads it back. */
  function EncodeFilters(f: Filters): map<string, Json>
  {
    map["vendor" := JString(f.vendor), "statuses" := JArray(StringsToJson(f.statuses)),
        "contractType" := JString(f.contractType)]
  }

  /** A list of allowed statuses passes the status filter unchanged. */
  lemma {:induction false} KeepAllowedStatusesOfAllowed(ss: seq<string>)
    requires forall i :: 0 <= i < |ss| ==> ss[i] in AllowedStatuses
    ensures KeepAllowedStatuses(StringsToJson(ss)) == ss
  {
    if ss != [] {
      assert StringsToJson(ss)[1..] == StringsToJson(ss[1..]);
      KeepAllowedStatusesOfAllowed(ss[1..]);
    }
  }

  /** Sanitising what was stored after sanitising gives it back: sanitising is idempotent. */
  lemma SanitizeEncoded(f: Filters)
    requires f.contractType in AllowedContractTypes
    requires forall i :: 0 <= i < |f.statuses| ==> f.statuses[i] in AllowedStatuses
    ensures Sanitize(EncodeFilters(f)) == f
  {
    KeepAllowedStatusesOfAllowed(f.statuses);
  }

  class SettingsService {
    /** Application-wide values, by key. */
    var appValues: map<string, string>
    /** Per-user values, by (user id, key). */
    var userValues: map<(string, string), string>
    /** Per-user filter preferences, decoded. */
    var userFilters: map<string, StoredFilters>

    constructor (appValues: map<string, string>, userValues: map<(string, string), string>,
                 userFilters: map<string, StoredFilters>)
      ensures this.appValues == appValues && this.userValues == userValues
      ensures this.userFilters == userFilters
    {
      this.appValues := appValues;
      this.userValues := userValues;
      this.userFilters := userFilters;
    }

    /** getAppValue(key, default). */
    function AppValue(key: string, default: string): string
      reads this
    {
      if key in appValues then appValues[key] else default
    }

    /** getUserValue(userId, key, default). */
    function UserValue(userId: string, key: string, default: string): string
      reads this
    {
      if (userId, key) in userValues then userValues[(userId, key)] else default
    }

    /** The Talk room token; the empty string stands for "none". */
    function GetTalkChatToken(): (t: Option<string>)
      reads this
      ensures t.None? <==> AppValue(TalkChatTokenKey, "") == ""
      ensures t.Some? ==> t.value == appValues[TalkChatTokenKey] && t.value != ""
    {
      var v := AppValue(TalkChatTokenKey, "");
      if v != "" then Some(v) else None
    }

    method SetTalkChatToken(token: Option<string>)
      modifies this
      ensures appValues == old(appValues)[TalkChatTokenKey := token.GetOr("")]
      ensures userValues == old(userValues) && userFilters == old(userFilters)
      ensures GetTalkChatToken() == if token == Some("") then None else token
    {
      appValues := appValues[TalkChatTokenKey := token.GetOr("")];
    }

    /** (int) of the stored text, the default written as "14". */
    function GetReminderDays1(): (n: int)
      reads this
      ensures ReminderDays1Key !in appValues ==> n == DefaultReminderDays1
      ensures ReminderDays1Key in appValues ==> n == PhpIntCast(appValues[ReminderDays1Key])
    {
      PhpIntCastOfIntToString(DefaultReminderDays1);
      PhpIntCast(AppValue(ReminderDays1Key, IntToString(DefaultReminderDays1)))
    }

    /** (int) of the stored text, the default written as "3". */
    function GetReminderDays2(): (n: int)
      reads this
      ensures ReminderDays2Key !in appValues ==> n == DefaultReminderDays2
      ensures ReminderDays2Key in appValues ==> n == PhpIntCast(appValues[ReminderDays2Key])
    {
      PhpIntCastOfIntToString(DefaultReminderDays2);
      PhpIntCast(AppValue(ReminderDays2Key, IntToString(DefaultReminderDays2)))
    }

    /** Stores max(1, days) as text: a lead time is at least one day. */
    method SetReminderDays1(days: int)
      modifies this
      ensures appValues == old(appValues)[ReminderDays1Key := IntToString(if days < 1 then 1 else days)]
      ensures userValues == old(userValues) && userFilters == old(userFilters)
      ensures GetReminderDays1() == (if days < 1 then 1 else days) && GetReminderDays1() >= 1
      ensures GetReminderDays2() == old(GetReminderDays2())
    {
      var stored := if days < 1 then 1 else days;
      appValues := appValues[ReminderDays1Key := IntToString(stored)];
      PhpIntCastOfIntToString(stored);
    }

    /** Stores max(1, days) as text: a lead time is at least one day. */
    method SetReminderDays2(days: int)
      modifies this
      ensures appValues == old(appValues)[ReminderDays2Key := IntToString(if days < 1 then 1 else days)]
      ensures userValues == old(userValues) && userFilters == old(userFilters)
      ensures GetReminderDays2() == (if days < 1 then 1 else days) && GetReminderDays2() >= 1
      ensures GetReminderDays1() == old(GetReminderDays1())
    {
      var stored := if days < 1 then 1 else days;
      appValues := appValues[ReminderDays2Key := IntToString(stored)];
      PhpIntCastOfIntToString(stored);
    }

    /** Email reminders are on exactly when the stored text is "1"; unset reads as "0". */
    function GetUserEmailReminder(userId: string): (on: bool)
      reads this
      ensures on <==> (userId, EmailReminderKey) in userValues && userValues[(userId, EmailReminderKey)] == "1"
    {
      UserValue(userId, EmailReminderKey, "0") == "1"
    }

    method SetUserEmailReminder(userId: string, enabled: bool)
      modifies this
      ensures userValues == old(userValues)[(userId, EmailReminderKey) := if enabled then "1" else "0"]
      ensures appValues == old(appValues) && userFilters == old(userFilters)
      ensures GetUserEmailReminder(userId) == enabled
      ensures forall u :: u != userId ==> GetUserEmailReminder(u) == old(GetUserEmailReminder(u))
    {
      userValues := userValues[(userId, EmailReminderKey) := if enabled then "1" else "0"];
    }

    /** The user's stored sort column, or the default when none is stored. */
    function GetUserSortBy(userId: string): (r: string)
      reads this
      ensures (userId, SortByKey) !in userValues ==> r == DefaultSortBy
      ensures (userId, SortByKey) in userValues ==> r == userValues[(userId, SortByKey)]
    {
      UserValue(userId, SortByKey, DefaultSortBy)
    }

    /** A value outside the whitelist is ignored; an allowed one is stored. */
    method SetUserSortBy(userId: string, sortBy: string)
      modifies this
      ensures sortBy !in AllowedSortBy ==> userValues == old(userValues)
      ensures sortBy in AllowedSortBy ==> userValues == old(userValues)[(userId, SortByKey) := sortBy]
      ensures appValues == old(appValues) && userFilters == old(userFilters)
      ensures sortBy in AllowedSortBy ==> GetUserSortBy(userId) == sortBy
      ensures old(SortPreferencesAllowed()) ==> SortPreferencesAllowed()
    {
      if sortBy !in AllowedSortBy {
        return;
      }
      userValues := userValues[(userId, SortByKey) := sortBy];
    }

    /** The user's stored sort direction, or the default when none is stored. */
    function GetUserSortDirection(userId: string): (r: string)
      reads this
      ensures (userId, SortDirectionKey) !in userValues ==> r == DefaultSortDirection
      ensures (userId, SortDirectionKey) in userValues ==> r == userValues[(userId, SortDirectionKey)]
    {
      UserValue(userId, SortDirectionKey, DefaultSortDirection)
    }

    /** A value outside the whitelist is ignored; an allowed one is stored. */
    method SetUserSortDirection(userId: string, direction: string)
      modifies this
      ensures direction !in AllowedSortDirection ==> userValues == old(userValues)
      ensures direction in AllowedSortDirection ==> userValues == old(userValues)[(userId, SortDirectionKey) := direction]
      ensures appValues == old(appValues) && userFilters == old(userFilters)
      ensures direction in AllowedSortDirection ==> GetUserSortDirection(userId) == direction
      ensures old(SortPreferencesAllowed()) ==> SortPreferencesAllowed()
    {
      if direction !in AllowedSortDirection {
        return;
      }
      userValues := userValues[(userId, SortDirectionKey) := direction];
    }

    /** Every stored sort preference is on its whitelist. */
    predicate SortPreferencesAllowed()
      reads this
    {
      forall k :: k in userValues ==>
        (k.1 == SortByKey ==> userValues[k] in AllowedSortBy)
        && (k.1 == SortDirectionKey ==> userValues[k] in AllowedSortDirection)
    }

    /** The filters stored for the user, sanitised; the defaults when unset or not an array. */
    function GetUserFilters(userId: string): (f: Filters)
      reads this
      ensures f.contractType in AllowedContractTypes
      ensures forall i :: 0 <= i < |f.statuses| ==> f.statuses[i] in AllowedStatuses
      ensures userId !in userFilters || !userFilters[userId].Decoded? ==> f == DefaultFilters
      ensures userId in userFilters && userFilters[userId].Decoded? ==> f == Sanitize(userFilters[userId].fields)
    {
      var stored := if userId in userFilters then userFilters[userId] else Unset;
      match stored
      case Unset => DefaultFilters
      case NotArray => DefaultFilters
      case Decoded(fields) => Sanitize(fields)
    }

    /** Stores the sanitised filters; reading them back gives the sanitised input. */
    method SetUserFilters(userId: string, filters: map<string, Json>)
      modifies this
      ensures userFilters == old(userFilters)[userId := Decoded(EncodeFilters(Sanitize(filters)))]
      ensures appValues == old(appValues) && userValues == old(userValues)
      ensures GetUserFilters(userId) == Sanitize(filters)
    {
      var validated := Sanitize(filters);
      userFilters := userFilters[userId := Decoded(EncodeFilters(validated))];
      SanitizeEncoded(validated);
    }
  }

  /** Under the whitelist invariant, every sort preference a user reads back is allowed. */
  lemma SortReadsAllowed(s: SettingsService, userId: string)
    requires s.SortPreferencesAllowed()
    ensures s.GetUserSortBy(userId) in AllowedSortBy
    ensures s.GetUserSortDirection(userId) in AllowedSortDirection
  {
  }
}

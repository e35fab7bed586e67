/** What CreateSchedule and UpdateSchedule accept, and what they store. */
module SchedulePlans {
  import opened Calendar
  import opened Schedules
  import opened Text
  import opened Wrappers

  const MAX_RECIPIENTS := 20

  datatype ScheduleInput = ScheduleInput(reportId: string, cadence: string, options: Options,
                                         recipients: seq<string>, format: string, enabled: Option<bool>)

  datatype Plan = Plan(cadence: string, options: Options, recipients: seq<string>, enabled: bool, nextRun: Option<int>)

  function Canonical(raw: string): string {
    Lower(Trim(raw))
  }

  /** `lower` is unicode.ToLower; `parses` holds of the addresses mail.ParseAddress
      accepts unchanged. */
  datatype Mail = Mail(lower: char -> char, parses: string -> bool)

  function Address(mail: Mail, raw: string): string {
    var trimmed := Trim(raw);
    seq(|trimmed|, i requires 0 <= i < |trimmed| => mail.lower(trimmed[i]))
  }

  /** An address is what lies between the blanks at both ends, lowered throughout. */
  lemma AddressIs(mail: Mail, raw: string)
    ensures exists before, core, after ::
              && Blank(before) && Blank(after) && raw == before + core + after
              && (core != "" ==> !Space(core[0]) && !Space(core[|core| - 1]))
              && |Address(mail, raw)| == |core|
              && forall i :: 0 <= i < |core| ==> Address(mail, raw)[i] == mail.lower(core[i])
  {
    TrimIsTheMiddle(raw);
  }

  function Addresses(mail: Mail, raw: seq<string>): seq<string> {
    seq(|raw|, i requires 0 <= i < |raw| => Address(mail, raw[i]))
  }

  ghost predicate GoodRecipients(raw: seq<string>, mail: Mail) {
    (forall i :: 0 <= i < |raw| ==> mail.parses(Address(mail, raw[i]))) &&
    1 <= |FirstOccurrences(Addresses(mail, raw))| <= 20
  }

  lemma RecipientsSnoc(mail: Mail, raw: seq<string>, i: nat)
    requires i < |raw|
    ensures var sofar, x := FirstOccurrences(Addresses(mail, raw[..i])), Address(mail, raw[i]);
            FirstOccurrences(Addresses(mail, raw[..i + 1])) == if x in sofar then sofar else sofar + [x]
    ensures FirstOccurrences(Addresses(mail, raw[..i + 1])) <= FirstOccurrences(Addresses(mail, raw))
  {
    assert Addresses(mail, raw[..i + 1])[..i] == Addresses(mail, raw[..i]);
    assert Addresses(mail, raw) == Addresses(mail, raw[..i + 1]) + Addresses(mail, raw[i + 1..]);
    FirstOccurrencesGrow(Addresses(mail, raw[..i + 1]), Addresses(mail, raw[i + 1..]));
  }

  lemma NoRecipients(mail: Mail, raw: seq<string>)
    ensures FirstOccurrences(Addresses(mail, raw[..0])) == []
  {
  }

  /** The recipients are accepted exactly when every address parses and 1 to 20
      distinct ones remain; they keep the order in which they first appear. */
  method NormalizeRecipients(raw: seq<string>, mail: Mail) returns (r: Result<seq<string>>)
    ensures r.Ok? <==> GoodRecipients(raw, mail)
    ensures r.Ok? ==> r.value == FirstOccurrences(Addresses(mail, raw)) && Distinct(r.value)
    ensures r.Err? ==> r.error == BadRecipients
  {
    hide Address, FirstOccurrences;
    NoRecipients(mail, raw);
    var recipients: seq<string> := [];
    var seen: set<string> := {};
    for i := 0 to |raw|
      invariant recipients == FirstOccurrences(Addresses(mail, raw[..i]))
      invariant seen == set x | x in recipients
      invariant |recipients| <= MAX_RECIPIENTS
      invariant forall j :: 0 <= j < i ==> mail.parses(Address(mail, raw[j]))
    {
      RecipientsSnoc(mail, raw, i);
      var address := Address(mail, raw[i]);
      if !mail.parses(address) {
        return Err(BadRecipients);
      }
      if address in seen {
        continue;
      }
      seen := seen + {address};
      recipients := recipients + [address];
      if |recipients| > MAX_RECIPIENTS {
        return Err(BadRecipients);
      }
    }
    assert raw[..|raw|] == raw;
    FirstOccurrencesAreDistinct(Addresses(mail, raw));
    r := if |recipients| == 0 then Err(BadRecipients) else Ok(recipients);
  }

  function WithReportZone(options: Options, reportZone: string): Options {
    if Blank(reportZone) then options
    else if "timezone" in options && options["timezone"].Words? && !Blank(options["timezone"].text) then options
    else options["timezone" := Words(Trim(reportZone))]
  }

  predicate NamesZone(options: Options) {
    "timezone" in options && options["timezone"].Words? && !Blank(options["timezone"].text)
  }

  /** A zone the options name stands; without one the report's zone, trimmed, is filled
      in, if it has one. Nothing else is touched. */
  ghost predicate ZoneIsSettled(asked: Options, reportZone: string, stored: Options) {
    && (forall key :: key != "timezone" ==>
          (key in stored <==> key in asked) && (key in asked ==> stored[key] == asked[key]))
    && (NamesZone(asked) ==> stored["timezone" := asked["timezone"]] == asked)
    && (!NamesZone(asked) && !Blank(reportZone) ==>
          "timezone" in stored && stored["timezone"] == Words(Trim(reportZone)))
    && (!NamesZone(asked) && Blank(reportZone) ==> stored == asked)
  }

  /** `report` is the time zone of the saved report, if the workspace has it. */
  ghost predicate Acceptable(input: ScheduleInput, report: Option<string>, zones: Zones, mail: Mail) {
    && KnownCadence(input.cadence)
    && (Canonical(input.format) == "" || Canonical(input.format) == "csv")
    && GoodRecipients(input.recipients, mail)
    && ValidOptions(input.cadence, input.options)
    && Trim(input.reportId) != "" && report.Some?
    && ZoneOffset(WithReportZone(input.options, report.value), zones).Some?
  }

  lemma KnownCadencesAreCanonical(cadence: string)
    requires KnownCadence(cadence)
    ensures Canonical(cadence) == cadence
  {
    assert TrimLeft(cadence) == cadence && TrimRight(cadence) == cadence;
  }

  /** The cadence is validated in canonical form but the next run is computed from
      its raw spelling, so acceptance needs the raw one to be exact. */
  method PlanSchedule(input: ScheduleInput, report: Option<string>, now: int, zones: Zones, mail: Mail)
    returns (r: Result<Plan>)
    ensures r.Ok? <==> Acceptable(input, report, zones, mail)
    ensures r.Ok? ==>
              && r.value.cadence == input.cadence
              && r.value.options == WithReportZone(input.options, report.value)
              && ZoneIsSettled(input.options, report.value, r.value.options)
              && r.value.recipients == FirstOccurrences(Addresses(mail, input.recipients))
              && r.value.enabled == (input.enabled == None || input.enabled == Some(true))
              && r.value.nextRun == if r.value.enabled
                                    then Some(NextRun(now, input.cadence, r.value.options, zones).value) else None
    ensures !KnownCadence(Canonical(input.cadence)) ==> r == Err(BadCadence)
  {
    hide ZoneIsSettled, DailyRun, WeeklyRun, MonthlyRun;
    var cadence := Canonical(input.cadence);
    if KnownCadence(input.cadence) {
      KnownCadencesAreCanonical(input.cadence);
    }
    if !KnownCadence(cadence) {
      return Err(BadCadence);
    }
    if Canonical(input.format) != "" && Canonical(input.format) != "csv" {
      return Err(BadFormat);
    }
    var recipients := NormalizeRecipients(input.recipients, mail);
    if recipients.Err? {
      return Err(recipients.error);
    }
    if !ValidOptions(cadence, input.options) {
      return Err(BadOptions);
    }
    if Trim(input.reportId) == "" || report.None? {
      return Err(BadReport);
    }
    var options := WithReportZone(input.options, report.value);
    ZoneSettles(input.options, report.value);
    NextRunFails(now, input.cadence, options, zones);
    ZoneKeepsNumbers(input.cadence, input.options, report.value);
    var next := NextRun(now, input.cadence, options, zones);
    if next.Err? {
      return Err(next.error);
    }
    var enabled := input.enabled.None? || input.enabled.value;
    r := Ok(Plan(cadence, options, recipients.value, enabled, if enabled then Some(next.value) else None));
  }

  lemma ZoneSettles(asked: Options, reportZone: string)
    ensures ZoneIsSettled(asked, reportZone, WithReportZone(asked, reportZone))
  {
    hide Trim;
  }

  lemma ZoneKeepsNumbers(cadence: string, options: Options, reportZone: string)
    ensures ValidOptions(cadence, WithReportZone(options, reportZone)) <==> ValidOptions(cadence, options)
  {
  }

  /** Of an input that would be accepted with its cadence normalised, the raw spelling
      is accepted exactly when it already is the normalised one; otherwise it passes
      validation and the calculator refuses it. */
  lemma OnlyExactSpellingsPass(input: ScheduleInput, report: Option<string>, now: int, zones: Zones, mail: Mail)
    requires Acceptable(input.(cadence := Canonical(input.cadence)), report, zones, mail)
    ensures Acceptable(input, report, zones, mail) <==> input.cadence == Canonical(input.cadence)
    ensures input.cadence != Canonical(input.cadence) ==>
              && ValidOptions(Canonical(input.cadence), input.options)
              && NextRun(now, input.cadence, WithReportZone(input.options, report.value), zones) == Err(BadCadence)
  {
    var options := WithReportZone(input.options, report.value);
    if KnownCadence(input.cadence) {
      KnownCadencesAreCanonical(input.cadence);
    } else {
      ZoneKeepsNumbers(Canonical(input.cadence), input.options, report.value);
      NextRunFails(now, input.cadence, options, zones);
    }
  }

  /** Such spellings exist: capitals, and surrounding space. */
  lemma InexactSpellings()
    ensures Canonical("Daily") == "daily" && Canonical(" daily ") == "daily"
  {
    assert TrimLeft("Daily") == "Daily" && TrimRight("Daily") == "Daily" && Lower("Daily") == "daily";
    assert " daily "[1..] == "daily " && "daily "[..5] == "daily";
    assert TrimLeft(" daily ") == TrimLeft("daily ") == "daily ";
    assert TrimRight("daily ") == TrimRight("daily") == "daily" && Lower("daily") == "daily";
  }
}

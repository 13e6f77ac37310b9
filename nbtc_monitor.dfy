/** The monitoring run of nbtc_monitor.py: which merged records are new, what the seen-id
    file becomes, and which Telegram message the run composes. */
module NbtcMonitor {
  import opened Wrappers
  import opened Text
  import opened NbtcParse

  /** find_new_devices keeps a record when its id is non-empty and was not seen before. */
  predicate IsNew(d: Device, seen: set<string>) {
    d.id != "" && d.id !in seen
  }

  /** The records find_new_devices returns, in input order. */
  function NewDevices(current: seq<Device>, seen: set<string>): seq<Device> {
    if current == [] then []
    else
      var last := current[|current| - 1];
      NewDevices(current[..|current| - 1], seen) + (if IsNew(last, seen) then [last] else [])
  }

  /** Lines 123-131: the loop of find_new_devices. */
  method FindNewDevices(current: seq<Device>, seen: set<string>) returns (newDevices: seq<Device>)
    ensures newDevices == NewDevices(current, seen)
  {
    newDevices := [];
    for i := 0 to |current|
      invariant newDevices == NewDevices(current[..i], seen)
    {
      assert current[..i + 1][..i] == current[..i];
      var device := current[i];
      if device.id != "" && device.id !in seen {
        newDevices := newDevices + [device];
      }
    }
    assert current[..|current|] == current;
  }

  /** A record is reported exactly when it is one of the current records, its id is non-empty
      and its id was not seen before. */
  lemma {:induction false} NewDevicesMembers(current: seq<Device>, seen: set<string>)
    ensures forall d :: d in NewDevices(current, seen) <==> d in current && IsNew(d, seen)
  {
    if current != [] {
      var init := current[..|current| - 1];
      NewDevicesMembers(init, seen);
      assert current == init + [current[|current| - 1]];
    }
  }

  /** The filter works record by record: reporting two lists one after the other is reporting
      each, in order. Repeated records are therefore all reported. */
  lemma {:induction false} NewDevicesAppend(a: seq<Device>, b: seq<Device>, seen: set<string>)
    ensures NewDevices(a + b, seen) == NewDevices(a, seen) + NewDevices(b, seen)
    decreases |b|
  {
    if b == [] {
      assert a + b == a;
    } else {
      var init := b[..|b| - 1];
      assert (a + b)[..|a + b| - 1] == a + init;
      assert (a + b)[|a + b| - 1] == b[|b| - 1];
      NewDevicesAppend(a, init, seen);
    }
  }

  /** When every record is new, all of them are reported, duplicates included. */
  lemma {:induction false} AllNewReported(current: seq<Device>, seen: set<string>)
    requires forall k :: 0 <= k < |current| ==> IsNew(current[k], seen)
    ensures NewDevices(current, seen) == current
  {
    if current != [] {
      var init := current[..|current| - 1];
      AllNewReported(init, seen);
      assert current == init + [current[|current| - 1]];
    }
  }

  /** all_current_ids in main: the non-empty ids of the current records. */
  function CurrentIds(current: seq<Device>): set<string> {
    set d | d in current && d.id != "" :: d.id
  }

  /** The ids of the reported records are the current ids that were not seen. */
  lemma NewIdsAreUnseenCurrentIds(current: seq<Device>, seen: set<string>)
    ensures IdsOf(NewDevices(current, seen)) == CurrentIds(current) - seen
  {
    NewDevicesMembers(current, seen);
    var nd := NewDevices(current, seen);
    forall id | id in CurrentIds(current) - seen ensures id in IdsOf(nd) {
      var d :| d in current && d.id != "" && d.id == id;
      assert d in nd;
    }
  }

  /** After saving, the same records are no longer new. */
  lemma SavedIdsSilenceRepeat(current: seq<Device>, seen: set<string>)
    ensures NewDevices(current, seen + CurrentIds(current)) == []
  {
    SeenIdsSilence(current, seen + CurrentIds(current));
  }

  lemma {:induction false} SeenIdsSilence(current: seq<Device>, seen: set<string>)
    requires CurrentIds(current) <= seen
    ensures NewDevices(current, seen) == []
  {
    if current != [] {
      var init := current[..|current| - 1];
      var last := current[|current| - 1];
      assert CurrentIds(init) <= CurrentIds(current) by {
        forall d | d in init ensures d in current {
        }
      }
      assert last in current;
      SeenIdsSilence(init, seen);
    }
  }

  // ---------------------------------------------------------------------------
  // The Telegram message of send_new_device_notification.

  /** One sample line of the first-run message. */
  datatype Sample = Sample(brand: string, model: string)

  /** One listed device of a later message; note is the description line, when shown. */
  datatype Item = Item(brand: string, model: string, note: Option<string>)

  /** What a message says: the first-run summary, or the report of new devices, with the
      number of devices left out of the listing. */
  datatype Notice =
    | SetupNotice(found: nat, samples: seq<Sample>)
    | NewDevicesNotice(count: nat, items: seq<Item>, more: nat)

  function SampleOf(d: Device): Sample {
    Sample(d.brand, d.model)
  }

  /** The description is shown when it is non-empty and differs from the model. */
  function ItemOf(d: Device): Item {
    Item(d.brand, d.model, if d.description != "" && d.description != d.model then Some(d.description) else None)
  }

  /** The number of samples of a first-run message and of items of a later one. */
  const MaxSamples: nat := 3
  const MaxItems: nat := 5

  /** Lines 134-160 without the credentials test: the message for the reported records, if any. */
  function ComposeNotice(newDevices: seq<Device>, isFirstRun: bool): (n: Option<Notice>)
    ensures n.Some? <==> isFirstRun || newDevices != []
    ensures isFirstRun ==>
      n.Some? && n.value.SetupNotice? && n.value.found == |newDevices| &&
      |n.value.samples| == Min(MaxSamples, |newDevices|) &&
      forall k :: 0 <= k < |n.value.samples| ==> n.value.samples[k] == SampleOf(newDevices[k])
    ensures !isFirstRun && n.Some? ==>
      n.value.NewDevicesNotice? && n.value.count == |newDevices| &&
      |n.value.items| == Min(MaxItems, |newDevices|) &&
      (forall k :: 0 <= k < |n.value.items| ==> n.value.items[k] == ItemOf(newDevices[k])) &&
      (n.value.more > 0 <==> |newDevices| > MaxItems) &&
      |n.value.items| + n.value.more == |newDevices|
  {
    var shown := newDevices[..Min(if isFirstRun then MaxSamples else MaxItems, |newDevices|)];
    if isFirstRun then Some(SetupNotice(|newDevices|, SamplesOf(shown)))
    else if newDevices != [] then Some(NewDevicesNotice(|newDevices|, ItemsOf(shown), |newDevices| - |shown|))
    else None
  }

  function SamplesOf(ds: seq<Device>): (r: seq<Sample>)
    ensures |r| == |ds| && forall k :: 0 <= k < |ds| ==> r[k] == SampleOf(ds[k])
  {
    seq(|ds|, k requires 0 <= k < |ds| => SampleOf(ds[k]))
  }

  function ItemsOf(ds: seq<Device>): (r: seq<Item>)
    ensures |r| == |ds| && forall k :: 0 <= k < |ds| ==> r[k] == ItemOf(ds[k])
  {
    seq(|ds|, k requires 0 <= k < |ds| => ItemOf(ds[k]))
  }

  // Text pieces. Emoji are written as code points: U+1F389 party popper, U+2705 check mark,
  // U+1F4C5 calendar, U+1F680 rocket, U+1F4F1 mobile phone, U+1F4DD memo, U+1F50D magnifier,
  // U+1F517 link.

  const SetupTitle: string := "\U{1F389} <b>NBTC Monitor Setup Complete!</b>\n\n"
  const FoundPrefix: string := "\U{2705} Found "
  const FoundSuffix: string := " devices on first scan\n"
  const MonitoringLine: string := "\U{1F4C5} Now monitoring for NEW devices daily at 7 AM IST\n\n"
  const SamplesHeader: string := "Sample devices found:\n"
  const SetupTail: string := "\n\U{1F680} You'll only get notified about NEW devices from now on!"
  const CountPrefix: string := "\U{1F4F1} <b>"
  const CountSuffix: string := " NEW Cellular Mobile devices found!</b>\n\n"
  const NotePrefix: string := "   \U{1F4DD} "
  const ModelPrefix: string := "   \U{1F50D} Model: <code>"
  const ModelSuffix: string := "</code>\n\n"
  const MorePrefix: string := "...and "
  const MoreSuffix: string := " more devices!\n\n"
  const ApprovedLine: string := "\U{1F389} <b>These devices are newly approved by NBTC!</b>\n"
  const SearchLine: string :=
    "\U{1F517} Search them at: <a href='https://mocheck.nbtc.go.th/search-equipments'>NBTC Search</a>"

  function SetupHead(found: nat): string {
    SetupTitle + (FoundPrefix + DecimalString(found) + FoundSuffix) + MonitoringLine + SamplesHeader
  }

  function SampleLine(position: nat, s: Sample): string {
    DecimalString(position) + ". " + s.brand + " " + s.model + "\n"
  }

  /** The numbered sample lines, numbered from 1. */
  function SampleLines(samples: seq<Sample>): string {
    if samples == [] then ""
    else SampleLines(samples[..|samples| - 1]) + SampleLine(|samples|, samples[|samples| - 1])
  }

  function ReportHead(count: nat): string {
    CountPrefix + DecimalString(count) + CountSuffix
  }

  function ItemBlock(position: nat, it: Item): string {
    ItemTitle(position, it) + ItemNote(it) + (ModelPrefix + it.model + ModelSuffix)
  }

  function ItemTitle(position: nat, it: Item): string {
    DecimalString(position) + ". <b>" + it.brand + " " + it.model + "</b>\n"
  }

  function ItemNote(it: Item): string {
    if it.note.Some? then NotePrefix + it.note.value + "\n" else ""
  }

  /** The numbered item blocks, numbered from 1. */
  function ItemBlocks(items: seq<Item>): string {
    if items == [] then ""
    else ItemBlocks(items[..|items| - 1]) + ItemBlock(|items|, items[|items| - 1])
  }

  function MoreLine(more: nat): string {
    MorePrefix + DecimalString(more) + MoreSuffix
  }


  /** The message text of a notice. */
  function Render(n: Notice): string {
    match n
    case SetupNotice(found, samples) => SetupHead(found) + SampleLines(samples) + SetupTail
    case NewDevicesNotice(count, items, more) =>
      ReportHead(count) + ItemBlocks(items) + (if more > 0 then MoreLine(more) else "") +
      ApprovedLine + SearchLine
  }

  /** The text send_new_device_notification posts, or None when it posts nothing. */
  function NotificationText(newDevices: seq<Device>, isFirstRun: bool, hasCredentials: bool): Option<string> {
    if !hasCredentials then None
    else
      match ComposeNotice(newDevices, isFirstRun)
      case None => None
      case Some(n) => Some(Render(n))
  }

  /** A text is posted exactly when the credentials are set and this is the first run or
      something new was found; a later report names the number of unlisted devices exactly
      when more than five are new. */
  lemma NotificationPolicy(newDevices: seq<Device>, isFirstRun: bool, hasCredentials: bool)
    ensures NotificationText(newDevices, isFirstRun, hasCredentials).Some? <==>
      hasCredentials && (isFirstRun || newDevices != [])
    ensures hasCredentials && !isFirstRun && |newDevices| > MaxItems ==>
      Contains(NotificationText(newDevices, isFirstRun, hasCredentials).value,
        MoreLine(|newDevices| - MaxItems))
  {
    if hasCredentials && !isFirstRun && |newDevices| > MaxItems {
      var n := ComposeNotice(newDevices, isFirstRun).value;
      var pre := ReportHead(n.count) + ItemBlocks(n.items);
      assert n.more == |newDevices| - MaxItems;
      AppendAssoc(pre + MoreLine(n.more), ApprovedLine, SearchLine);
      ContainsInfix(pre, MoreLine(n.more), ApprovedLine + SearchLine);
    }
  }

  lemma SampleLinesSnoc(ds: seq<Device>, i: nat)
    requires i < |ds|
    ensures SampleLines(SamplesOf(ds[..i + 1])) == SampleLines(SamplesOf(ds[..i])) + SampleLine(i + 1, SampleOf(ds[i]))
  {
    assert SamplesOf(ds[..i + 1])[..i] == SamplesOf(ds[..i]);
  }

  lemma ItemBlocksSnoc(ds: seq<Device>, i: nat)
    requires i < |ds|
    ensures ItemBlocks(ItemsOf(ds[..i + 1])) == ItemBlocks(ItemsOf(ds[..i])) + ItemBlock(i + 1, ItemOf(ds[i]))
  {
    assert ItemsOf(ds[..i + 1])[..i] == ItemsOf(ds[..i]);
  }

  /** Lines 133-160: nothing is posted without credentials or without anything to say. */
  method SendNewDeviceNotification(newDevices: seq<Device>, isFirstRun: bool, hasCredentials: bool)
    returns (msg: Option<string>)
    ensures msg == NotificationText(newDevices, isFirstRun, hasCredentials)
  {
    if !hasCredentials {
      return None;
    }
    var text: string;
    if isFirstRun {
      text := SetupMessage(newDevices);
    } else if newDevices != [] {
      text := ReportMessage(newDevices);
    } else {
      return None;
    }
    msg := Some(text);
  }

  /** Lines 138-144: the first-run message, built piece by piece with +=. */
  method SetupMessage(newDevices: seq<Device>) returns (text: string)
    ensures text == Render(ComposeNotice(newDevices, true).value)
  {
    text := SetupTitle;
    text := text + (FoundPrefix + DecimalString(|newDevices|) + FoundSuffix);
    text := text + MonitoringLine;
    text := text + SamplesHeader;
    assert text + SampleLines(SamplesOf(newDevices[..0])) == text;
    for i := 0 to Min(MaxSamples, |newDevices|)
      invariant text == SetupHead(|newDevices|) + SampleLines(SamplesOf(newDevices[..i]))
    {
      var d := newDevices[i];
      var line := DecimalString(i + 1) + ". " + d.brand + " " + d.model + "\n";
      SampleLinesSnoc(newDevices, i);
      AppendAssoc(SetupHead(|newDevices|), SampleLines(SamplesOf(newDevices[..i])), line);
      text := text + line;
    }
    text := text + SetupTail;
  }

  /** Lines 145-158: the report of new devices, built piece by piece with +=. */
  method ReportMessage(newDevices: seq<Device>) returns (text: string)
    requires newDevices != []
    ensures text == Render(ComposeNotice(newDevices, false).value)
  {
    text := CountPrefix + DecimalString(|newDevices|) + CountSuffix;
    assert text + ItemBlocks(ItemsOf(newDevices[..0])) == text;
    for i := 0 to Min(MaxItems, |newDevices|)
      invariant text == ReportHead(|newDevices|) + ItemBlocks(ItemsOf(newDevices[..i]))
    {
      var device := newDevices[i];
      var brand := device.brand;
      var model := device.model;
      var desc := device.description;
      ghost var before := text;
      ghost var it := ItemOf(device);
      var title := DecimalString(i + 1) + ". <b>" + brand + " " + model + "</b>\n";
      text := text + title;
      ghost var titled := text;
      if desc != "" && desc != model {
        text := text + (NotePrefix + desc + "\n");
      }
      assert text == titled + ItemNote(it);
      var modelLine := ModelPrefix + model + ModelSuffix;
      text := text + modelLine;
      AppendAssoc(before, title, ItemNote(it));
      AppendAssoc(before, title + ItemNote(it), modelLine);
      ItemBlocksSnoc(newDevices, i);
      AppendAssoc(ReportHead(|newDevices|), ItemBlocks(ItemsOf(newDevices[..i])), ItemBlock(i + 1, it));
    }
    ghost var listed := text;
    if |newDevices| > 5 {
      text := text + (MorePrefix + DecimalString(|newDevices| - 5) + MoreSuffix);
    }
    assert text == listed + (if |newDevices| > MaxItems then MoreLine(|newDevices| - MaxItems) else "");
    text := text + ApprovedLine;
    text := text + SearchLine;
  }

  // ---------------------------------------------------------------------------
  // The control logic of main.

  /** What one run does: the message it posts, the list it writes to new_devices.json, and the
      id set it saves to the seen-id file (None: not written). */
  datatype RunOutcome = RunOutcome(message: Option<string>, reported: Option<seq<Device>>, saved: Option<set<string>>)

  /** Lines 177-194 for the loaded seen ids and the extracted records. */
  function MonitorRun(seen: set<string>, current: seq<Device>, hasCredentials: bool): RunOutcome {
    if current == [] then RunOutcome(None, None, None)
    else
      var isFirstRun := |seen| == 0;
      var newDevices := NewDevices(current, seen);
      var notify := isFirstRun || newDevices != [];
      RunOutcome(
        if notify then NotificationText(newDevices, isFirstRun, hasCredentials) else None,
        if notify then Some(newDevices) else None,
        Some(seen + CurrentIds(current)))
  }

  /** A run that extracts nothing returns before doing anything else. Otherwise it saves a
      superset of the old ids holding every current id, in particular every reported one. */
  lemma MonitorRunSaves(seen: set<string>, current: seq<Device>, hasCredentials: bool)
    ensures current == [] ==> MonitorRun(seen, current, hasCredentials) == RunOutcome(None, None, None)
    ensures current != [] ==>
      var o := MonitorRun(seen, current, hasCredentials);
      o.saved.Some? && seen <= o.saved.value && CurrentIds(current) <= o.saved.value &&
      forall d :: d in NewDevices(current, seen) ==> d.id in o.saved.value
  {
    NewDevicesMembers(current, seen);
  }

  /** A message is posted exactly when something was extracted, the credentials are set, and
      the seen-id file was empty or a new record turned up; new_devices.json is written in the
      same cases whatever the credentials. */
  lemma MonitorRunNotifies(seen: set<string>, current: seq<Device>, hasCredentials: bool)
    ensures var o := MonitorRun(seen, current, hasCredentials);
      (o.message.Some? <==>
        current != [] && hasCredentials && (seen == {} || exists d :: d in current && IsNew(d, seen))) &&
      (o.reported.Some? <==> current != [] && (seen == {} || exists d :: d in current && IsNew(d, seen)))
  {
    NewDevicesMembers(current, seen);
    var nd := NewDevices(current, seen);
    NotificationPolicy(nd, |seen| == 0, hasCredentials);
    if nd != [] {
      assert nd[0] in nd;
    }
  }

  /** Running again over the same pages with the saved ids posts nothing and saves the same
      set: the extracted ids are never empty, so the saved set only goes empty when nothing was
      extracted, and then nothing was saved. */
  lemma RerunIsQuiet(seen: set<string>, pageTexts: seq<string>, hasCredentials: bool)
    requires MonitorRun(seen, Extracted(pageTexts), hasCredentials).saved.Some?
    ensures var saved := MonitorRun(seen, Extracted(pageTexts), hasCredentials).saved.value;
      var again := MonitorRun(saved, Extracted(pageTexts), hasCredentials);
      again.message.None? && again.reported.None? && again.saved == Some(saved)
  {
    var current := Extracted(pageTexts);
    var saved := seen + CurrentIds(current);
    ExtractedIdsNonEmpty(pageTexts);
    SavedIdsSilenceRepeat(current, seen);
    assert current[0] in current;
    assert current[0].id in saved;
    assert saved + CurrentIds(current) == saved;
  }

  /** Lines 177-194 of main over the page texts the browser produced, the loaded seen ids and
      whether the Telegram credentials are set. */
  method RunMonitor(seen: set<string>, pageTexts: seq<string>, hasCredentials: bool) returns (outcome: RunOutcome)
    ensures outcome == MonitorRun(seen, Extracted(pageTexts), hasCredentials)
  {
    var isFirstRun := |seen| == 0;
    var currentDevices := ExtractAllDevices(pageTexts);
    if currentDevices == [] {
      return RunOutcome(None, None, None);
    }
    var newDevices := FindNewDevices(currentDevices, seen);
    var message: Option<string> := None;
    var reported: Option<seq<Device>> := None;
    if isFirstRun || newDevices != [] {
      message := SendNewDeviceNotification(newDevices, isFirstRun, hasCredentials);
      reported := Some(newDevices);
    }
    var allCurrentIds := set d | d in currentDevices && d.id != "" :: d.id;
    var updatedSeenIds := seen + allCurrentIds;
    outcome := RunOutcome(message, reported, Some(updatedSeenIds));
  }
}

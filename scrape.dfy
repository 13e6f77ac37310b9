/** scrape.py: poll the first pages of the device API, report the devices whose key was not
    seen before, and save the union of the old and the new keys. */
module Scrape {
  import opened Wrappers
  import opened Text

  /** A device record as the API returns it; a field is None when the key is missing. */
  datatype ApiDevice = ApiDevice(id: Option<string>, certificateNo: Option<string>, brand: Option<string>, model: Option<string>)

  /** The page size of every request, and the number of pages polled at most. */
  const PerPage: nat := 20
  const MaxPages: nat := 5

  /** `device.get("id") or device.get("certificate_no")`, with "" standing for a falsy value. */
  function Key(d: ApiDevice): string {
    if d.id.Some? && d.id.value != "" then d.id.value else d.certificateNo.GetOr("")
  }

  // ---------------------------------------------------------------------------
  // The page loop, lines 6-16.

  /** The arguments of one fetch_devices call. */
  datatype Request = Request(page: nat, perPage: nat)

  /** The (page, per_page) requests made from page p on. */
  function RequestsFrom(fetch: (nat, nat) -> seq<ApiDevice>, p: nat): seq<Request>
    decreases MaxPages + 1 - p
  {
    if p > MaxPages then []
    else
      var ds := fetch(p, PerPage);
      [Request(p, PerPage)] + (if ds == [] || |ds| < PerPage then [] else RequestsFrom(fetch, p + 1))
  }

  /** The devices the loop goes through from page p on, in page order. */
  function FetchedFrom(fetch: (nat, nat) -> seq<ApiDevice>, p: nat): seq<ApiDevice>
    decreases MaxPages + 1 - p
  {
    if p > MaxPages then []
    else
      var ds := fetch(p, PerPage);
      if ds == [] then [] else ds + (if |ds| < PerPage then [] else FetchedFrom(fetch, p + 1))
  }

  function Requests(fetch: (nat, nat) -> seq<ApiDevice>): seq<Request> {
    RequestsFrom(fetch, 1)
  }

  function Fetched(fetch: (nat, nat) -> seq<ApiDevice>): seq<ApiDevice> {
    FetchedFrom(fetch, 1)
  }

  /** The page a request asked for came back with a full page of devices. */
  predicate IsFullPage(fetch: (nat, nat) -> seq<ApiDevice>, r: Request) {
    |fetch(r.page, r.perPage)| >= PerPage
  }

  lemma RequestsFromShape(fetch: (nat, nat) -> seq<ApiDevice>, p: nat)
    requires 1 <= p <= MaxPages
    ensures var r := RequestsFrom(fetch, p);
      1 <= |r| <= MaxPages + 1 - p &&
      (forall k :: 0 <= k < |r| ==> r[k] == Request(p + k, PerPage)) &&
      (forall k :: 0 <= k < |r| - 1 ==> IsFullPage(fetch, r[k])) &&
      (p + |r| - 1 == MaxPages || |fetch(p + |r| - 1, PerPage)| < PerPage)
  {
    RequestsFromPages(fetch, p);
    RequestsFromFull(fetch, p);
    RequestsFromLast(fetch, p);
  }

  /** The requests from page p on are for pages p, p + 1, ..., none past page 5. */
  lemma {:induction false} RequestsFromPages(fetch: (nat, nat) -> seq<ApiDevice>, p: nat)
    requires 1 <= p <= MaxPages
    ensures 1 <= |RequestsFrom(fetch, p)| <= MaxPages + 1 - p
    ensures forall k :: 0 <= k < |RequestsFrom(fetch, p)| ==> RequestsFrom(fetch, p)[k] == Request(p + k, PerPage)
    decreases MaxPages + 1 - p
  {
    var ds := fetch(p, PerPage);
    if !(ds == [] || |ds| < PerPage) && p < MaxPages {
      RequestsFromPages(fetch, p + 1);
      var r := RequestsFrom(fetch, p);
      var rest := RequestsFrom(fetch, p + 1);
      assert r == [Request(p, PerPage)] + rest;
      forall k | 1 <= k < |r| ensures r[k] == Request(p + k, PerPage) {
        assert r[k] == rest[k - 1];
      }
    }
  }

  /** Every page requested before the last one was full. */
  lemma {:induction false} RequestsFromFull(fetch: (nat, nat) -> seq<ApiDevice>, p: nat)
    requires 1 <= p <= MaxPages
    ensures forall k :: 0 <= k < |RequestsFrom(fetch, p)| - 1 ==> IsFullPage(fetch, RequestsFrom(fetch, p)[k])
    decreases MaxPages + 1 - p
  {
    var ds := fetch(p, PerPage);
    if !(ds == [] || |ds| < PerPage) && p < MaxPages {
      RequestsFromFull(fetch, p + 1);
      var r := RequestsFrom(fetch, p);
      var rest := RequestsFrom(fetch, p + 1);
      assert r == [Request(p, PerPage)] + rest;
      forall k | 0 <= k < |r| - 1 ensures IsFullPage(fetch, r[k]) {
        if k > 0 {
          assert r[k] == rest[k - 1];
        } else {
          assert r[0] == Request(p, PerPage);
        }
      }
    }
  }

  /** The last page requested was short, or it was page 5. */
  lemma {:induction false} RequestsFromLast(fetch: (nat, nat) -> seq<ApiDevice>, p: nat)
    requires 1 <= p <= MaxPages
    ensures var r := RequestsFrom(fetch, p);
      p + |r| - 1 == MaxPages || |fetch(p + |r| - 1, PerPage)| < PerPage
    decreases MaxPages + 1 - p
  {
    var ds := fetch(p, PerPage);
    if !(ds == [] || |ds| < PerPage) && p < MaxPages {
      RequestsFromLast(fetch, p + 1);
      assert |RequestsFrom(fetch, p)| == 1 + |RequestsFrom(fetch, p + 1)|;
    }
  }

  /** fetch_devices is called for pages 1, 2, ... in order, at most five times, always with
      per_page 20; every page but the last one requested was full, and the last one was short
      (or empty) unless it was page 5. */
  lemma RequestedPages(fetch: (nat, nat) -> seq<ApiDevice>)
    ensures var r := Requests(fetch);
      1 <= |r| <= MaxPages &&
      (forall k :: 0 <= k < |r| ==> r[k] == Request(k + 1, PerPage)) &&
      (forall k :: 0 <= k < |r| - 1 ==> IsFullPage(fetch, r[k])) &&
      (|r| == MaxPages || |fetch(|r|, PerPage)| < PerPage)
  {
    RequestsFromShape(fetch, 1);
  }

  /** The devices of the pages requested, page after page. */
  function PagesContent(fetch: (nat, nat) -> seq<ApiDevice>, requests: seq<Request>): seq<ApiDevice> {
    if requests == [] then []
    else fetch(requests[0].page, requests[0].perPage) + PagesContent(fetch, requests[1..])
  }

  /** The loop goes through every device of every requested page, and through nothing else. */
  lemma {:induction false} FetchedFromRequests(fetch: (nat, nat) -> seq<ApiDevice>, p: nat)
    ensures FetchedFrom(fetch, p) == PagesContent(fetch, RequestsFrom(fetch, p))
    decreases MaxPages + 1 - p
  {
    if p <= MaxPages {
      var ds := fetch(p, PerPage);
      if ds == [] || |ds| < PerPage {
        PagesContentCons(fetch, Request(p, PerPage), []);
        assert ds + [] == ds;
      } else {
        FetchedFromRequests(fetch, p + 1);
        PagesContentCons(fetch, Request(p, PerPage), RequestsFrom(fetch, p + 1));
      }
    }
  }

  lemma PagesContentCons(fetch: (nat, nat) -> seq<ApiDevice>, r: Request, rest: seq<Request>)
    ensures PagesContent(fetch, [r] + rest) == fetch(r.page, r.perPage) + PagesContent(fetch, rest)
  {
    assert ([r] + rest)[1..] == rest;
  }

  // ---------------------------------------------------------------------------
  // New devices, lines 10-14.

  /** The device is reported: its key is non-empty and not among the ids loaded. */
  predicate IsNew(d: ApiDevice, seen: set<string>) {
    Key(d) != "" && Key(d) !in seen
  }

  /** new_devices: every fetched device that is new, in order. */
  function NewOf(ds: seq<ApiDevice>, seen: set<string>): seq<ApiDevice> {
    if ds == [] then []
    else
      var last := ds[|ds| - 1];
      NewOf(ds[..|ds| - 1], seen) + (if IsNew(last, seen) then [last] else [])
  }

  /** new_ids: the keys of the reported devices. */
  function KeysOf(ds: seq<ApiDevice>): set<string> {
    set d | d in ds :: Key(d)
  }

  /** The non-empty keys of the devices. */
  function PresentKeys(ds: seq<ApiDevice>): set<string> {
    set d | d in ds && Key(d) != "" :: Key(d)
  }

  /** A device is reported exactly when it was fetched and is new; a device with neither an
      id nor a certificate number never is. */
  lemma {:induction false} NewOfMembers(ds: seq<ApiDevice>, seen: set<string>)
    ensures forall d :: d in NewOf(ds, seen) <==> d in ds && IsNew(d, seen)
  {
    if ds != [] {
      var init := ds[..|ds| - 1];
      NewOfMembers(init, seen);
      assert ds == init + [ds[|ds| - 1]];
    }
  }

  /** Only the loaded ids are consulted, never the keys collected so far, so every page is
      filtered on its own and a device repeated across pages is reported each time. */
  lemma {:induction false} NewOfAppend(a: seq<ApiDevice>, b: seq<ApiDevice>, seen: set<string>)
    ensures NewOf(a + b, seen) == NewOf(a, seen) + NewOf(b, seen)
    decreases |b|
  {
    if b == [] {
      assert a + b == a;
    } else {
      var init := b[..|b| - 1];
      assert (a + b)[..|a + b| - 1] == a + init;
      assert (a + b)[|a + b| - 1] == b[|b| - 1];
      NewOfAppend(a, init, seen);
    }
  }

  /** The keys collected are the non-empty fetched keys that were not loaded. */
  lemma NewKeys(ds: seq<ApiDevice>, seen: set<string>)
    ensures KeysOf(NewOf(ds, seen)) == PresentKeys(ds) - seen
  {
    NewOfMembers(ds, seen);
    var nd := NewOf(ds, seen);
    forall k | k in PresentKeys(ds) - seen ensures k in KeysOf(nd) {
      var d :| d in ds && Key(d) != "" && Key(d) == k;
      assert d in nd;
    }
  }

  lemma {:induction false} KnownKeysSilence(ds: seq<ApiDevice>, seen: set<string>)
    requires PresentKeys(ds) <= seen
    ensures NewOf(ds, seen) == []
  {
    if ds != [] {
      var init := ds[..|ds| - 1];
      assert PresentKeys(init) <= PresentKeys(ds) by {
        forall d | d in init ensures d in ds {
        }
      }
      assert ds[|ds| - 1] in ds;
      KnownKeysSilence(init, seen);
    }
  }

  // ---------------------------------------------------------------------------
  // The Telegram message, lines 25-34.

  /** One listed device. */
  datatype Entry = Entry(brand: string, model: string, certificateNo: string, link: string)

  /** The message: the number of new devices, the first five of them, and how many more. */
  datatype Notice = Notice(count: nat, entries: seq<Entry>, more: nat)

  const MaxEntries: nat := 5
  const DetailUrl: string := "https://mocheck.nbtc.go.th/equipment-detail/"

  /** Missing fields read as "", and the link uses the id, not the key. */
  function EntryOf(d: ApiDevice): Entry {
    Entry(d.brand.GetOr(""), d.model.GetOr(""), d.certificateNo.GetOr(""), DetailUrl + d.id.GetOr(""))
  }

  function EntriesOf(ds: seq<ApiDevice>): (r: seq<Entry>)
    ensures |r| == |ds| && forall k :: 0 <= k < |ds| ==> r[k] == EntryOf(ds[k])
  {
    seq(|ds|, k requires 0 <= k < |ds| => EntryOf(ds[k]))
  }

  function Compose(newDevices: seq<ApiDevice>): (n: Notice)
    ensures n.count == |newDevices|
    ensures |n.entries| == Min(MaxEntries, |newDevices|)
    ensures forall k :: 0 <= k < |n.entries| ==> n.entries[k] == EntryOf(newDevices[k])
    ensures n.more > 0 <==> |newDevices| > MaxEntries
    ensures |n.entries| + n.more == |newDevices|
  {
    var shown := newDevices[..Min(MaxEntries, |newDevices|)];
    Notice(|newDevices|, EntriesOf(shown), |newDevices| - |shown|)
  }

  // Emoji are written as code points: U+1F4F1 mobile phone, U+1F517 link.
  const CountPrefix: string := "\U{1F4F1} <b>"
  const CountSuffix: string := " new Cellular Mobile devices found!</b>\n"
  const BrandLabel: string := "\n<b>Brand:</b> "
  const ModelLabel: string := "\n<b>Model:</b> "
  const CertLabel: string := "\n<b>Cert No:</b> "
  const LinkLabel: string := "\n\U{1F517} "
  const MorePrefix: string := "\n...and "
  const MoreSuffix: string := " more."

  function Head(count: nat): string {
    CountPrefix + DecimalString(count) + CountSuffix
  }

  function EntryText(e: Entry): string {
    BrandLabel + e.brand + ModelLabel + e.model + CertLabel + e.certificateNo + LinkLabel + e.link + "\n"
  }

  function EntriesText(es: seq<Entry>): string {
    if es == [] then "" else EntriesText(es[..|es| - 1]) + EntryText(es[|es| - 1])
  }

  function MoreText(more: nat): string {
    MorePrefix + DecimalString(more) + MoreSuffix
  }

  function Render(n: Notice): string {
    Head(n.count) + EntriesText(n.entries) + (if n.more > 0 then MoreText(n.more) else "")
  }

  /** The message sent, if any. */
  function Message(newDevices: seq<ApiDevice>): Option<string>
  {
    if newDevices == [] then None else Some(Render(Compose(newDevices)))
  }

  lemma EntriesTextEndsInNewline(es: seq<Entry>)
    requires es != []
    ensures EntriesText(es)[|EntriesText(es)| - 1] == '\n'
  {
  }

  /** A message is sent exactly when something new was found; it ends with the count of the
      devices not listed exactly when more than five were found, and otherwise with the end of
      a line. */
  lemma MessagePolicy(newDevices: seq<ApiDevice>)
    ensures Message(newDevices).Some? <==> newDevices != []
    ensures |newDevices| > MaxEntries ==>
      var m := Message(newDevices).value;
      var tail := MoreText(|newDevices| - MaxEntries);
      |tail| <= |m| && m[|m| - |tail|..] == tail
    ensures 0 < |newDevices| <= MaxEntries ==>
      var m := Message(newDevices).value;
      m[|m| - 1] == '\n'
  {
    if |newDevices| > MaxEntries {
      EndsWithMore(newDevices);
    } else if newDevices != [] {
      EndsWithNewline(newDevices);
    }
  }

  lemma EndsWithMore(newDevices: seq<ApiDevice>)
    requires |newDevices| > MaxEntries
    ensures var m := Message(newDevices).value;
      var tail := MoreText(|newDevices| - MaxEntries);
      |tail| <= |m| && m[|m| - |tail|..] == tail
  {
    var n := Compose(newDevices);
    assert n.more == |newDevices| - MaxEntries;
    var listed := Head(n.count) + EntriesText(n.entries);
    var tail := MoreText(n.more);
    assert Render(n) == listed + tail;
    SuffixOfAppend(listed, tail);
  }

  lemma EndsWithNewline(newDevices: seq<ApiDevice>)
    requires 0 < |newDevices| <= MaxEntries
    ensures var m := Message(newDevices).value;
      m[|m| - 1] == '\n'
  {
    var n := Compose(newDevices);
    var head := Head(n.count);
    var entries := EntriesText(n.entries);
    EntriesTextEndsInNewline(n.entries);
    assert Message(newDevices).value == head + entries + "";
    assert (head + entries)[|head + entries| - 1] == entries[|entries| - 1];
  }

  /** Lines 25-34: the message, built piece by piece with +=. */
  method BuildMessage(newDevices: seq<ApiDevice>) returns (msg: string)
    requires newDevices != []
    ensures msg == Render(Compose(newDevices))
  {
    msg := CountPrefix + DecimalString(|newDevices|) + CountSuffix;
    assert msg + EntriesText(EntriesOf(newDevices[..0])) == msg;
    for i := 0 to Min(MaxEntries, |newDevices|)
      invariant msg == Head(|newDevices|) + EntriesText(EntriesOf(newDevices[..i]))
    {
      var d := newDevices[i];
      var brand := d.brand.GetOr("");
      var model := d.model.GetOr("");
      var cert := d.certificateNo.GetOr("");
      var deviceId := d.id.GetOr("");
      var link := DetailUrl + deviceId;
      var entry := BrandLabel + brand + ModelLabel + model + CertLabel + cert + LinkLabel + link + "\n";
      assert entry == EntryText(EntryOf(d));
      EntriesTextSnoc(newDevices, i);
      AppendAssoc(Head(|newDevices|), EntriesText(EntriesOf(newDevices[..i])), entry);
      msg := msg + entry;
    }
    ghost var listed := msg;
    if |newDevices| > 5 {
      msg := msg + (MorePrefix + DecimalString(|newDevices| - 5) + MoreSuffix);
    }
    assert msg == listed + (if |newDevices| > MaxEntries then MoreText(|newDevices| - MaxEntries) else "");
    var n := Compose(newDevices);
    assert n.entries == EntriesOf(newDevices[..Min(MaxEntries, |newDevices|)]);
    assert n.more == |newDevices| - Min(MaxEntries, |newDevices|);
  }

  lemma EntriesTextSnoc(ds: seq<ApiDevice>, i: nat)
    requires i < |ds|
    ensures EntriesText(EntriesOf(ds[..i + 1])) == EntriesText(EntriesOf(ds[..i])) + EntryText(EntryOf(ds[i]))
  {
    assert EntriesOf(ds[..i + 1])[..i] == EntriesOf(ds[..i]);
  }

  // ---------------------------------------------------------------------------
  // main.

  /** Keys of the new devices found, once collected. */
  lemma KeysOfSnoc(ds: seq<ApiDevice>, d: ApiDevice)
    ensures KeysOf(ds + [d]) == KeysOf(ds) + {Key(d)}
  {
    assert forall e :: e in ds + [d] <==> e in ds || e == d;
  }

  /** Request p and what follows it. */
  lemma RequestsStep(fetch: (nat, nat) -> seq<ApiDevice>, p: nat, acc: seq<Request>)
    requires 1 <= p <= MaxPages
    ensures var ds := fetch(p, PerPage);
      (ds == [] || |ds| < PerPage ==> acc + RequestsFrom(fetch, p) == acc + [Request(p, PerPage)]) &&
      (!(ds == [] || |ds| < PerPage) ==>
        acc + RequestsFrom(fetch, p) == (acc + [Request(p, PerPage)]) + RequestsFrom(fetch, p + 1))
  {
    AppendAssoc(acc, [Request(p, PerPage)], RequestsFrom(fetch, p + 1));
  }

  /** The new devices, page by page, from page p on. */
  function NewFrom(fetch: (nat, nat) -> seq<ApiDevice>, p: nat, seen: set<string>): seq<ApiDevice>
    decreases MaxPages + 1 - p
  {
    if p > MaxPages then []
    else
      var ds := fetch(p, PerPage);
      if ds == [] then [] else NewOf(ds, seen) + (if |ds| < PerPage then [] else NewFrom(fetch, p + 1, seen))
  }

  /** Filtering page by page is filtering all the fetched devices at once. */
  lemma {:induction false} NewFromIsNewOfFetched(fetch: (nat, nat) -> seq<ApiDevice>, p: nat, seen: set<string>)
    ensures NewFrom(fetch, p, seen) == NewOf(FetchedFrom(fetch, p), seen)
    decreases MaxPages + 1 - p
  {
    if p <= MaxPages && |fetch(p, PerPage)| >= PerPage {
      NewFromIsNewOfFetched(fetch, p + 1, seen);
      FullPage(fetch, p, seen);
    } else {
      LastPage(fetch, p, seen);
    }
  }

  /** Where the loop stops: past page 5, or at an empty or short page. */
  lemma LastPage(fetch: (nat, nat) -> seq<ApiDevice>, p: nat, seen: set<string>)
    requires p > MaxPages || |fetch(p, PerPage)| < PerPage
    ensures NewFrom(fetch, p, seen) == NewOf(FetchedFrom(fetch, p), seen)
  {
    if p <= MaxPages {
      var ds := fetch(p, PerPage);
      assert ds + [] == ds;
      assert NewOf(ds, seen) + [] == NewOf(ds, seen);
    }
  }

  /** A full page is followed by the later pages. */
  lemma FullPage(fetch: (nat, nat) -> seq<ApiDevice>, p: nat, seen: set<string>)
    requires p <= MaxPages && |fetch(p, PerPage)| >= PerPage
    requires NewFrom(fetch, p + 1, seen) == NewOf(FetchedFrom(fetch, p + 1), seen)
    ensures NewFrom(fetch, p, seen) == NewOf(FetchedFrom(fetch, p), seen)
  {
    NewOfAppend(fetch(p, PerPage), FetchedFrom(fetch, p + 1), seen);
  }

  /** Page p's new devices and those of the later pages. */
  lemma NewFromStep(fetch: (nat, nat) -> seq<ApiDevice>, p: nat, acc: seq<ApiDevice>, seen: set<string>)
    requires 1 <= p <= MaxPages
    ensures var ds := fetch(p, PerPage);
      (ds == [] ==> acc + NewFrom(fetch, p, seen) == acc) &&
      (ds != [] && |ds| < PerPage ==> acc + NewFrom(fetch, p, seen) == acc + NewOf(ds, seen)) &&
      (ds != [] && |ds| >= PerPage ==>
        acc + NewFrom(fetch, p, seen) == (acc + NewOf(ds, seen)) + NewFrom(fetch, p + 1, seen))
  {
    var ds := fetch(p, PerPage);
    if ds == [] {
      assert acc + [] == acc;
    } else if |ds| < PerPage {
      assert NewOf(ds, seen) + [] == NewOf(ds, seen);
    } else {
      AppendAssoc(acc, NewOf(ds, seen), NewFrom(fetch, p + 1, seen));
    }
  }

  /** Lines 10-14 for one page: appends the new devices and collects their keys. */
  method CollectNew(acc: seq<ApiDevice>, keys: set<string>, devices: seq<ApiDevice>, seenIds: set<string>)
    returns (acc': seq<ApiDevice>, keys': set<string>)
    requires keys == KeysOf(acc)
    ensures acc' == acc + NewOf(devices, seenIds)
    ensures keys' == KeysOf(acc')
  {
    acc', keys' := acc, keys;
    for j := 0 to |devices|
      invariant acc' == acc + NewOf(devices[..j], seenIds)
      invariant keys' == KeysOf(acc')
    {
      var device := devices[j];
      var deviceId := Key(device);
      assert devices[..j + 1][..j] == devices[..j];
      if deviceId != "" && deviceId !in seenIds {
        AppendAssoc(acc, NewOf(devices[..j], seenIds), [device]);
        KeysOfSnoc(acc', device);
        acc' := acc' + [device];
        keys' := keys' + {deviceId};
      }
    }
    assert devices[..|devices|] == devices;
  }

  /** Lines 1-40 with fetch_devices as a parameter and the loaded ids given: the requests made,
      the new devices (written to new_devices.json when non-empty), the message sent, and the ids saved. */
  method ScrapeMain(fetch: (nat, nat) -> seq<ApiDevice>, seenIds: set<string>)
    returns (requests: seq<Request>, newDevices: seq<ApiDevice>, message: Option<string>, saved: set<string>)
    ensures requests == Requests(fetch)
    ensures newDevices == NewOf(Fetched(fetch), seenIds)
    ensures message == Message(newDevices)
    ensures saved == seenIds + KeysOf(newDevices)
  {
    var newIds;
    requests, newDevices, newIds := PollPages(fetch, seenIds);
    NewFromIsNewOfFetched(fetch, 1, seenIds);
    if newDevices != [] {
      var msg := BuildMessage(newDevices);
      message := Some(msg);
    } else {
      message := None;
    }
    saved := seenIds + newIds;
  }

  /** Lines 3-16: the page loop. */
  method PollPages(fetch: (nat, nat) -> seq<ApiDevice>, seenIds: set<string>)
    returns (requests: seq<Request>, newDevices: seq<ApiDevice>, newIds: set<string>)
    ensures requests == Requests(fetch)
    ensures newDevices == NewFrom(fetch, 1, seenIds)
    ensures newIds == KeysOf(newDevices)
  {
    newIds := {};
    newDevices := [];
    requests := [];
    for page := 1 to MaxPages + 1
      invariant requests + RequestsFrom(fetch, page) == Requests(fetch)
      invariant newDevices + NewFrom(fetch, page, seenIds) == NewFrom(fetch, 1, seenIds)
      invariant newIds == KeysOf(newDevices)
    {
      var stop;
      requests, newDevices, newIds, stop := PollPage(fetch, page, seenIds, requests, newDevices, newIds);
      if stop {
        break;
      }
    }
  }

  method PollPage(fetch: (nat, nat) -> seq<ApiDevice>, page: nat, seenIds: set<string>,
                  requests: seq<Request>, newDevices: seq<ApiDevice>, newIds: set<string>)
    returns (requests': seq<Request>, newDevices': seq<ApiDevice>, newIds': set<string>, stop: bool)
    requires 1 <= page <= MaxPages
    requires newIds == KeysOf(newDevices)
    ensures newIds' == KeysOf(newDevices')
    ensures stop ==> requests' == requests + RequestsFrom(fetch, page)
    ensures stop ==> newDevices' == newDevices + NewFrom(fetch, page, seenIds)
    ensures !stop ==> requests' + RequestsFrom(fetch, page + 1) == requests + RequestsFrom(fetch, page)
    ensures !stop ==> newDevices' + NewFrom(fetch, page + 1, seenIds) == newDevices + NewFrom(fetch, page, seenIds)
  {
    var devices := fetch(page, PerPage);
    RequestsStep(fetch, page, requests);
    NewFromStep(fetch, page, newDevices, seenIds);
    requests' := requests + [Request(page, PerPage)];
    newDevices', newIds' := newDevices, newIds;
    if devices == [] {
      return requests', newDevices', newIds', true;
    }
    newDevices', newIds' := CollectNew(newDevices, newIds, devices, seenIds);
    stop := |devices| < PerPage;
  }

  /** The saved set keeps every loaded id and adds exactly the non-empty keys of the fetched
      devices; polling the same pages again with it reports nothing. */
  lemma SavedIds(fetch: (nat, nat) -> seq<ApiDevice>, seenIds: set<string>)
    ensures var saved := seenIds + KeysOf(NewOf(Fetched(fetch), seenIds));
      seenIds <= saved &&
      saved == seenIds + PresentKeys(Fetched(fetch)) &&
      NewOf(Fetched(fetch), saved) == []
  {
    NewKeys(Fetched(fetch), seenIds);
    KnownKeysSilence(Fetched(fetch), seenIds + PresentKeys(Fetched(fetch)));
  }
}

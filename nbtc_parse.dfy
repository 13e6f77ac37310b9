/** parse_devices_from_text and the cross-page merge of extract_all_devices_with_pagination
    (nbtc_monitor.py): page text to de-duplicated device records. */
module NbtcParse {
  import opened Wrappers
  import opened Text
  import opened ModelCode

  /** A record as parse_devices_from_text builds it; every field is a string. */
  datatype Device = Device(id: string, brand: string, model: string, description: string, subType: string, certificateNo: string)

  const SubType: string := "Cellular Mobile"

  /** `word.isalpha() and len(word) > 2`. */
  predicate IsBrandWord(w: string) {
    |w| > 2 && forall k :: 0 <= k < |w| ==> IsLetter(w[k])
  }

  /** Every non-empty part has a word, so `part.strip().split()[0]` does not raise. */
  predicate WordsDefined(parts: seq<string>) {
    forall k :: 0 <= k < |parts| ==> parts[k] != [] ==> Strip(parts[k]) != []
  }

  lemma WordsDefinedOfThree(a: string, b: string, c: string)
    requires a != [] ==> Strip(a) != []
    requires b != [] ==> Strip(b) != []
    requires c != [] ==> Strip(c) != []
    ensures WordsDefined([a, b, c])
  {
    var parts := [a, b, c];
    forall k | 0 <= k < 3 ensures parts[k] != [] ==> Strip(parts[k]) != [] {
      if k == 0 { assert parts[k] == a; } else if k == 1 { assert parts[k] == b; } else { assert parts[k] == c; }
    }
  }

  /** A part the brand loop accepts: non-empty, and its first word is a brand word. */
  predicate Qualifies(part: string) {
    part != [] && Strip(part) != [] && IsBrandWord(FirstWord(part))
  }

  /** The brand one part offers: its first word, when the part is non-empty and that word is
      a brand word. */
  function PartBrand(part: string): Option<string>
    requires part != [] ==> Strip(part) != []
  {
    if part != [] && IsBrandWord(FirstWord(part)) then Some(FirstWord(part)) else None
  }

  function Brands(parts: seq<string>): seq<Option<string>>
    requires WordsDefined(parts)
  {
    seq(|parts|, k requires 0 <= k < |parts| => PartBrand(parts[k]))
  }

  /** The brand guess: what the first part offering a brand offers, else "Unknown". */
  function BrandGuess(parts: seq<string>): string
    requires WordsDefined(parts)
  {
    FirstSomeFrom(Brands(parts), 0, "Unknown")
  }

  lemma PartBrandQualifies(part: string)
    requires part != [] ==> Strip(part) != []
    ensures PartBrand(part).Some? <==> Qualifies(part)
    ensures PartBrand(part).Some? ==> PartBrand(part).value == FirstWord(part)
  {
  }

  /** The brand is the first word of the first qualifying part, or "Unknown" when no part
      qualifies. */
  lemma BrandGuessIsFirstQualifying(parts: seq<string>)
    requires WordsDefined(parts)
    ensures forall k :: 0 <= k < |parts| && Qualifies(parts[k]) && (forall j :: 0 <= j < k ==> !Qualifies(parts[j])) ==>
      BrandGuess(parts) == FirstWord(parts[k])
    ensures (forall k :: 0 <= k < |parts| ==> !Qualifies(parts[k])) ==> BrandGuess(parts) == "Unknown"
  {
    var ws := Brands(parts);
    forall k | 0 <= k < |parts| && Qualifies(parts[k]) && (forall j :: 0 <= j < k ==> !Qualifies(parts[j]))
      ensures BrandGuess(parts) == FirstWord(parts[k])
    {
      forall j | 0 <= j < k ensures ws[j].None? {
        PartBrandQualifies(parts[j]);
      }
      PartBrandQualifies(parts[k]);
      FirstSomeAt(ws, 0, k, "Unknown");
    }
    if forall k :: 0 <= k < |parts| ==> !Qualifies(parts[k]) {
      forall j | 0 <= j < |parts| ensures ws[j].None? {
        PartBrandQualifies(parts[j]);
      }
      FirstSomeNone(ws, 0, "Unknown");
    }
  }

  /** Whichever way it is found, the brand is a brand word. */
  lemma BrandGuessIsBrandWord(parts: seq<string>)
    requires WordsDefined(parts)
    ensures IsBrandWord(BrandGuess(parts))
  {
    var ws := Brands(parts);
    FirstSomeIsPresent(ws, 0, "Unknown");
    if BrandGuess(parts) != "Unknown" {
      var k :| 0 <= k < |ws| && ws[k] == Some(BrandGuess(parts));
      assert PartBrand(parts[k]) == ws[k];
    }
  }

  /** The `for part in [before, between, after]` loop of parse_devices_from_text. */
  method GuessBrand(parts: seq<string>) returns (brand: string)
    requires WordsDefined(parts)
    ensures brand == BrandGuess(parts)
  {
    ghost var ws := Brands(parts);
    brand := "";
    for i := 0 to |parts|
      invariant brand == ""
      invariant FirstSomeFrom(ws, i, "Unknown") == BrandGuess(parts)
    {
      var part := parts[i];
      assert ws[i] == PartBrand(part);
      if part != [] {
        var word := FirstWord(part);
        if word != [] && IsBrandWord(word) {
          brand := word;
          break;
        }
      }
    }
    if brand == "" {
      brand := "Unknown";
    }
  }

  /** What one line of the page text yields before de-duplication: the loop body of
      parse_devices_from_text without the found_ids test. */
  function ParseLine(raw: string): (r: Option<Device>)
    ensures |Strip(raw)| < 5 ==> r.None?
    ensures r.Some? ==>
      var d := r.value;
      d.description == Strip(raw) && d.id == d.model == d.certificateNo &&
      |d.id| >= 4 && d.subType == "Cellular Mobile" && IsBrandWord(d.brand)
  {
    var line := Strip(raw);
    if line == [] || |line| < 5 then None
    else
      match MatchLine(line)
      case None => None
      case Some(g) =>
        GroupsHaveWords(line);
        if g.code != [] && |g.code| >= 4 then
          var parts := [g.before, g.between, g.after];
          WordsDefinedOfThree(g.before, g.between, g.after);
          BrandGuessIsBrandWord(parts);
          Some(Device(g.code, BrandGuess(parts), g.code, line, SubType, g.code))
        else None
  }

  /** A line yields a record exactly when its stripped text has at least five characters and
      holds the model-code pattern; the record's id is the leftmost-longest occurrence, and
      its brand comes from the text before the code and the text after it. */
  lemma ParseLineIsLeftmostCode(raw: string)
    ensures var line := Strip(raw);
      ParseLine(raw).Some? <==> |line| >= 5 && exists i, q :: PatternAt(line, i, q)
    ensures ParseLine(raw).Some? ==>
      var line := Strip(raw);
      var d := ParseLine(raw).value;
      exists i, q :: (PatternAt(line, i, q) && d.id == line[i..q] &&
        (forall i', q' :: 0 <= i' < i ==> !PatternAt(line, i', q')) &&
        (forall q' :: PatternAt(line, i, q') ==> q' <= q))
  {
    ParseLineOccurs(raw);
    ParseLineLeftmost(raw);
  }

  lemma ParseLineOccurs(raw: string)
    ensures var line := Strip(raw);
      ParseLine(raw).Some? <==> |line| >= 5 && exists i, q :: PatternAt(line, i, q)
  {
    var line := Strip(raw);
    ParseLineFindsCode(raw, line);
    FindCodeIsLeftmostLongest(line);
  }

  lemma ParseLineLeftmost(raw: string)
    ensures ParseLine(raw).Some? ==>
      var line := Strip(raw);
      var d := ParseLine(raw).value;
      exists i, q :: (PatternAt(line, i, q) && d.id == line[i..q] &&
        (forall i', q' :: 0 <= i' < i ==> !PatternAt(line, i', q')) &&
        (forall q' :: PatternAt(line, i, q') ==> q' <= q))
  {
    var line := Strip(raw);
    ParseLineFindsCode(raw, line);
    FindCodeIsLeftmostLongest(line);
    if ParseLine(raw).Some? {
      var sp := FindCode(line).value;
      assert PatternAt(line, sp.start, sp.end);
    }
  }

  /** ParseLine in terms of the model-code search alone. */
  lemma ParseLineFindsCode(raw: string, line: string)
    requires line == Strip(raw)
    ensures ParseLine(raw).Some? <==> |line| >= 5 && FindCode(line).Some?
    ensures ParseLine(raw).Some? ==>
      ParseLine(raw).value.id == line[FindCode(line).value.start..FindCode(line).value.end]
  {
  }

  /** The ids of a list of records. */
  function IdsOf(ds: seq<Device>): set<string> {
    set d | d in ds :: d.id
  }

  /** First-occurrence de-duplication by id, starting from the ids already taken: the
      found_ids / seen_ids pattern of both loops. */
  function FirstByIdFrom(ds: seq<Device>, taken: set<string>): seq<Device> {
    if ds == [] then []
    else if ds[0].id in taken then FirstByIdFrom(ds[1..], taken)
    else [ds[0]] + FirstByIdFrom(ds[1..], taken + {ds[0].id})
  }

  function FirstById(ds: seq<Device>): seq<Device> {
    FirstByIdFrom(ds, {})
  }

  /** No two records share an id. */
  predicate UniqueIds(ds: seq<Device>) {
    forall i, j :: 0 <= i < j < |ds| ==> ds[i].id != ds[j].id
  }

  /** No record has one of the given ids. */
  predicate AvoidsIds(ds: seq<Device>, taken: set<string>) {
    forall i :: 0 <= i < |ds| ==> ds[i].id !in taken
  }

  /** De-duplication leaves pairwise distinct ids, none of them already taken. */
  lemma {:induction false} FirstByIdUnique(ds: seq<Device>, taken: set<string>)
    ensures UniqueIds(FirstByIdFrom(ds, taken)) && AvoidsIds(FirstByIdFrom(ds, taken), taken)
  {
    if ds != [] {
      if ds[0].id in taken {
        FirstByIdUnique(ds[1..], taken);
      } else {
        var t := taken + {ds[0].id};
        FirstByIdUnique(ds[1..], t);
        var rest := FirstByIdFrom(ds[1..], t);
        var r := [ds[0]] + rest;
        assert FirstByIdFrom(ds, taken) == r;
        forall i | 0 <= i < |r| ensures r[i].id !in taken {
          if i > 0 { assert r[i] == rest[i - 1]; }
        }
        forall i, j | 0 <= i < j < |r| ensures r[i].id != r[j].id {
          assert r[j] == rest[j - 1];
          if i > 0 { assert r[i] == rest[i - 1]; }
        }
      }
    }
  }

  /** De-duplication keeps one record for every id not already taken, and no other ids. */
  lemma {:induction false} FirstByIdIds(ds: seq<Device>, taken: set<string>)
    ensures IdsOf(FirstByIdFrom(ds, taken)) == IdsOf(ds) - taken
  {
    if ds != [] {
      var t := if ds[0].id in taken then taken else taken + {ds[0].id};
      FirstByIdIds(ds[1..], t);
      assert IdsOf(ds) == {ds[0].id} + IdsOf(ds[1..]) by {
        assert forall d :: d in ds <==> d == ds[0] || d in ds[1..];
      }
      if ds[0].id !in taken {
        var rest := FirstByIdFrom(ds[1..], t);
        assert IdsOf([ds[0]] + rest) == {ds[0].id} + IdsOf(rest) by {
          assert forall d :: d in [ds[0]] + rest <==> d == ds[0] || d in rest;
        }
      }
    }
  }

  /** The first record of ds with the given id. */
  function FirstWithId(ds: seq<Device>, id: string): (d: Device)
    requires id in IdsOf(ds)
    ensures d in ds && d.id == id
  {
    if ds[0].id == id then ds[0]
    else
      assert id in IdsOf(ds[1..]) by {
        var d :| d in ds && d.id == id;
        assert d in ds[1..];
      }
      FirstWithId(ds[1..], id)
  }

  /** Every record of r is the first record of ds with its id. */
  predicate FirstOccurrences(r: seq<Device>, ds: seq<Device>) {
    forall k :: 0 <= k < |r| ==> r[k].id in IdsOf(ds) && r[k] == FirstWithId(ds, r[k].id)
  }

  /** Every record kept is the first record of the input with its id. */
  lemma {:induction false} FirstByIdKeepsFirst(ds: seq<Device>, taken: set<string>)
    ensures FirstOccurrences(FirstByIdFrom(ds, taken), ds)
  {
    if ds != [] {
      var t := if ds[0].id in taken then taken else taken + {ds[0].id};
      FirstByIdKeepsFirst(ds[1..], t);
      FirstByIdUnique(ds[1..], t);
      var rest := FirstByIdFrom(ds[1..], t);
      var r := FirstByIdFrom(ds, taken);
      assert r == if ds[0].id in taken then rest else [ds[0]] + rest;
      forall k | 0 <= k < |r| ensures r[k].id in IdsOf(ds) && r[k] == FirstWithId(ds, r[k].id) {
        if ds[0].id !in taken && k == 0 {
          assert r[0] == ds[0];
        } else {
          var k' := if ds[0].id in taken then k else k - 1;
          var e := rest[k'];
          assert r[k] == e;
          assert e.id !in t;
          assert e.id in IdsOf(ds[1..]) && e == FirstWithId(ds[1..], e.id);
          assert e.id != ds[0].id;
          assert e in ds;
        }
      }
    }
  }

  /** Reference definition of first-occurrence de-duplication: the record at each position
      is kept exactly when its id is not taken and does not occur earlier. */
  function KeepFirst(ds: seq<Device>, taken: set<string>): seq<Device> {
    if ds == [] then []
    else
      var init := ds[..|ds| - 1];
      var last := ds[|ds| - 1];
      KeepFirst(init, taken) + (if last.id in taken || last.id in IdsOf(init) then [] else [last])
  }

  /** De-duplicating a list with one more record at the end adds it exactly when its id is new. */
  lemma {:induction false} FirstByIdSnoc(ds: seq<Device>, x: Device, taken: set<string>)
    ensures FirstByIdFrom(ds + [x], taken) ==
      FirstByIdFrom(ds, taken) + (if x.id in taken || x.id in IdsOf(ds) then [] else [x])
  {
    if ds == [] {
      assert IdsOf(ds) == {};
      assert [] + [x] == [x];
    } else {
      assert (ds + [x])[1..] == ds[1..] + [x];
      assert IdsOf(ds) == {ds[0].id} + IdsOf(ds[1..]) by {
        assert forall d :: d in ds <==> d == ds[0] || d in ds[1..];
      }
      var t := if ds[0].id in taken then taken else taken + {ds[0].id};
      FirstByIdSnoc(ds[1..], x, t);
    }
  }

  /** The loop's de-duplication agrees with the reference definition, so records stay in
      input order. */
  lemma {:induction false} FirstByIdIsKeepFirst(ds: seq<Device>, taken: set<string>)
    ensures FirstByIdFrom(ds, taken) == KeepFirst(ds, taken)
    decreases |ds|
  {
    if ds != [] {
      var init := ds[..|ds| - 1];
      assert ds == init + [ds[|ds| - 1]];
      FirstByIdSnoc(init, ds[|ds| - 1], taken);
      FirstByIdIsKeepFirst(init, taken);
    }
  }

  /** The records the lines yield, in line order, before de-duplication. */
  function Candidates(lines: seq<string>): seq<Device> {
    FilterMap(ParseLine, lines)
  }

  /** The ids of ds together with one more record. */
  lemma IdsOfSnoc(ds: seq<Device>, d: Device)
    ensures IdsOf(ds + [d]) == IdsOf(ds) + {d.id}
  {
    assert forall e :: e in ds + [d] <==> e in ds || e == d;
  }

  /** The records parse_devices_from_text returns for a page text. */
  function PageDevices(text: string): seq<Device> {
    FirstById(Candidates(SplitLines(text)))
  }

  /** The record a line yields, from its match groups and brand guess. */
  lemma ParseLineYields(raw: string, line: string, g: Groups, brand: string)
    requires line == Strip(raw) && |line| >= 5 && MatchLine(line) == Some(g)
    requires WordsDefined([g.before, g.between, g.after]) && brand == BrandGuess([g.before, g.between, g.after])
    ensures ParseLine(raw) == Some(Device(g.code, brand, g.code, line, SubType, g.code))
  {
  }

  /** De-duplicating a list that starts with d. */
  lemma FirstByIdCons(d: Device, rest: seq<Device>, taken: set<string>)
    ensures FirstByIdFrom([d] + rest, taken) ==
      if d.id in taken then FirstByIdFrom(rest, taken) else [d] + FirstByIdFrom(rest, taken + {d.id})
  {
    assert ([d] + rest)[1..] == rest;
  }

  /** parse_devices_from_text: split into lines, strip and match each one, and keep the first
      record for each model code. */
  method ParseDevicesFromText(text: string) returns (devices: seq<Device>)
    ensures devices == PageDevices(text)
  {
    devices := [];
    var foundIds: set<string> := {};
    var lines := SplitLines(text);
    for i := 0 to |lines|
      invariant foundIds == IdsOf(devices)
      invariant devices + FirstByIdFrom(Candidates(lines[i..]), foundIds) == PageDevices(text)
    {
      var rest := Candidates(lines[i + 1..]);
      FilterMapDrop(ParseLine, lines, i);
      var line := Strip(lines[i]);
      if line == [] || |line| < 5 {
        assert ParseLine(lines[i]) == None;
        assert Candidates(lines[i..]) == rest;
        continue;
      }
      var m := MatchLine(line);
      if m.None? {
        assert ParseLine(lines[i]) == None;
        assert Candidates(lines[i..]) == rest;
        assert devices + FirstByIdFrom(rest, foundIds) == PageDevices(text);
      } else {
        var g := m.value;
        GroupsHaveWords(line);
        WordsDefinedOfThree(g.before, g.between, g.after);
        assert |g.code| >= 4;
        if g.code != [] && |g.code| >= 4 {
          ParseLineYields(lines[i], line, g, BrandGuess([g.before, g.between, g.after]));
          var c := ParseLine(lines[i]).value;
          assert Candidates(lines[i..]) == [c] + rest;
          FirstByIdCons(c, rest, foundIds);
          if g.code !in foundIds {
            var brand := GuessBrand([g.before, g.between, g.after]);
            var d := Device(g.code, brand, g.code, line, SubType, g.code);
            ParseLineYields(lines[i], line, g, brand);
            IdsOfSnoc(devices, d);
            var tail := FirstByIdFrom(rest, foundIds + {d.id});
            assert FirstByIdFrom(Candidates(lines[i..]), foundIds) == [d] + tail;
            AppendAssoc(devices, [d], tail);
            devices := devices + [d];
            foundIds := foundIds + {g.code};
            assert devices + FirstByIdFrom(rest, foundIds) == PageDevices(text);
          } else {
            assert FirstByIdFrom(Candidates(lines[i..]), foundIds) == FirstByIdFrom(rest, foundIds);
            assert devices + FirstByIdFrom(rest, foundIds) == PageDevices(text);
          }
        } else {
          assert false;
        }
      }
    }
  }

  /** All pages' records, in page order. */
  function Concat(pages: seq<seq<Device>>): seq<Device> {
    if pages == [] then [] else pages[0] + Concat(pages[1..])
  }

  /** What parse_devices_from_text returns for each page. */
  function ParsedPages(texts: seq<string>): (pages: seq<seq<Device>>)
    ensures |pages| == |texts|
    ensures forall k :: 0 <= k < |texts| ==> pages[k] == PageDevices(texts[k])
  {
    if texts == [] then [] else [PageDevices(texts[0])] + ParsedPages(texts[1..])
  }

  /** The devices extract_all_devices_with_pagination returns for the page texts it read. */
  function Extracted(texts: seq<string>): seq<Device> {
    FirstById(Concat(ParsedPages(texts)))
  }

  /** Lines 77-83 of extract_all_devices_with_pagination, over the page texts the browser
      produced (the text of page 1, then of each page reached by "next"). */
  method ExtractAllDevices(pageTexts: seq<string>) returns (allDevices: seq<Device>)
    ensures allDevices == Extracted(pageTexts)
  {
    allDevices := [];
    var seenIds: set<string> := {};
    for p := 0 to |pageTexts|
      invariant seenIds == IdsOf(allDevices)
      invariant allDevices + FirstByIdFrom(Concat(ParsedPages(pageTexts[p..])), seenIds) == Extracted(pageTexts)
    {
      var devices := ParseDevicesFromText(pageTexts[p]);
      var later := Concat(ParsedPages(pageTexts[p + 1..]));
      ConcatStep(pageTexts, p);
      FirstByIdAppend(devices, later, seenIds);
      AppendAssoc(allDevices, FirstByIdFrom(devices, seenIds), FirstByIdFrom(later, seenIds + IdsOf(devices)));
      allDevices, seenIds := AddNewDevices(allDevices, seenIds, devices);
    }
  }

  /** The inner loop of lines 77-83: appends each record of one page whose id was not seen. */
  method AddNewDevices(acc: seq<Device>, seen: set<string>, devices: seq<Device>)
    returns (acc': seq<Device>, seen': set<string>)
    requires seen == IdsOf(acc)
    ensures acc' == acc + FirstByIdFrom(devices, seen)
    ensures seen' == IdsOf(acc') == seen + IdsOf(devices)
  {
    acc', seen' := acc, seen;
    for j := 0 to |devices|
      invariant seen' == IdsOf(acc')
      invariant acc' + FirstByIdFrom(devices[j..], seen') == acc + FirstByIdFrom(devices, seen)
    {
      var d := devices[j];
      FirstByIdDrop(devices, j, seen');
      if d.id !in seen' {
        IdsOfSnoc(acc', d);
        AppendAssoc(acc', [d], FirstByIdFrom(devices[j + 1..], seen' + {d.id}));
        acc' := acc' + [d];
        seen' := seen' + {d.id};
      }
    }
    assert devices[|devices|..] == [];
    AddedIds(acc, seen, devices);
  }

  /** Appending the new records of a page adds the page's ids to the seen ids. */
  lemma AddedIds(acc: seq<Device>, seen: set<string>, devices: seq<Device>)
    requires seen == IdsOf(acc)
    ensures IdsOf(acc + FirstByIdFrom(devices, seen)) == seen + IdsOf(devices)
  {
    IdsOfAppend(acc, FirstByIdFrom(devices, seen));
    FirstByIdIds(devices, seen);
  }

  lemma IdsOfAppend(a: seq<Device>, b: seq<Device>)
    ensures IdsOf(a + b) == IdsOf(a) + IdsOf(b)
  {
    assert forall e :: e in a + b <==> e in a || e in b;
  }

  lemma {:induction false} ConcatStep(texts: seq<string>, p: nat)
    requires p < |texts|
    ensures Concat(ParsedPages(texts[p..])) == PageDevices(texts[p]) + Concat(ParsedPages(texts[p + 1..]))
  {
    assert texts[p..][1..] == texts[p + 1..];
  }

  lemma {:induction false} FirstByIdDrop(ds: seq<Device>, j: nat, taken: set<string>)
    requires j < |ds|
    ensures FirstByIdFrom(ds[j..], taken) ==
      if ds[j].id in taken then FirstByIdFrom(ds[j + 1..], taken)
      else [ds[j]] + FirstByIdFrom(ds[j + 1..], taken + {ds[j].id})
  {
    assert ds[j..][1..] == ds[j + 1..];
  }

  /** De-duplicating two lists one after the other: the second starts from the ids of the first. */
  lemma {:induction false} FirstByIdAppend(a: seq<Device>, b: seq<Device>, taken: set<string>)
    ensures FirstByIdFrom(a + b, taken) == FirstByIdFrom(a, taken) + FirstByIdFrom(b, taken + IdsOf(a))
  {
    if a == [] {
      assert a + b == b;
      assert IdsOf(a) == {};
      assert taken + {} == taken;
    } else {
      assert (a + b)[1..] == a[1..] + b;
      assert IdsOf(a) == {a[0].id} + IdsOf(a[1..]) by {
        assert forall d :: d in a <==> d == a[0] || d in a[1..];
      }
      var t := if a[0].id in taken then taken else taken + {a[0].id};
      FirstByIdAppend(a[1..], b, t);
      assert t + IdsOf(a[1..]) == taken + IdsOf(a);
    }
  }

  /** The ids of all pages together. */
  function UnionIds(pages: seq<seq<Device>>): set<string> {
    if pages == [] then {} else IdsOf(pages[0]) + UnionIds(pages[1..])
  }

  lemma {:induction false} ConcatIds(pages: seq<seq<Device>>)
    ensures IdsOf(Concat(pages)) == UnionIds(pages)
  {
    if pages != [] {
      ConcatIds(pages[1..]);
      var rest := Concat(pages[1..]);
      assert forall d :: d in pages[0] + rest <==> d in pages[0] || d in rest;
    }
  }

  /** The merged list has pairwise distinct ids, its ids are those of all pages together, each
      record is the first one across the pages (in page order) with its id, and the records
      keep their order. */
  lemma MergedPages(pages: seq<seq<Device>>)
    ensures var r := FirstById(Concat(pages));
      UniqueIds(r) &&
      IdsOf(r) == UnionIds(pages) &&
      FirstOccurrences(r, Concat(pages)) &&
      r == KeepFirst(Concat(pages), {})
  {
    FirstByIdUnique(Concat(pages), {});
    FirstByIdIds(Concat(pages), {});
    ConcatIds(pages);
    FirstByIdKeepsFirst(Concat(pages), {});
    FirstByIdIsKeepFirst(Concat(pages), {});
  }

  /** Parsed ids are never empty. */
  lemma {:induction false} CandidateIdsNonEmpty(lines: seq<string>)
    ensures forall d :: d in Candidates(lines) ==> |d.id| >= 4
  {
    FilterMapMembers(ParseLine, lines);
  }

  /** De-duplication keeps only records of its input. */
  lemma {:induction false} FirstByIdSubset(ds: seq<Device>, taken: set<string>)
    ensures forall d :: d in FirstByIdFrom(ds, taken) ==> d in ds
  {
    if ds != [] {
      var t := if ds[0].id in taken then taken else taken + {ds[0].id};
      FirstByIdSubset(ds[1..], t);
    }
  }

  /** Every extracted record has a model code of at least four characters as its id. */
  lemma {:induction false} ExtractedIdsNonEmpty(texts: seq<string>)
    ensures forall d :: d in Extracted(texts) ==> |d.id| >= 4
  {
    var pages := ParsedPages(texts);
    FirstByIdSubset(Concat(pages), {});
    ConcatIdsNonEmpty(texts);
  }

  lemma {:induction false} ConcatIdsNonEmpty(texts: seq<string>)
    ensures forall d :: d in Concat(ParsedPages(texts)) ==> |d.id| >= 4
  {
    if texts != [] {
      ConcatIdsNonEmpty(texts[1..]);
      var lines := SplitLines(texts[0]);
      CandidateIdsNonEmpty(lines);
      FirstByIdSubset(Candidates(lines), {});
      assert ParsedPages(texts) == [PageDevices(texts[0])] + ParsedPages(texts[1..]);
      assert Concat(ParsedPages(texts)) == PageDevices(texts[0]) + Concat(ParsedPages(texts[1..]));
    }
  }
}

/** kern/export_orchestrator.py: `run_export`, the switch that sends a
    request to one of the three trainer exporters, and the bridge that turns
    a legacy `items` payload into the "trainer_v2" shape. The exporters
    themselves are modelled in their own modules; here a request ends in the
    `Call` it makes, with the payload and the keyword arguments it passes. */
module ExportOrchestrator {
  import opened Wrappers
  import opened SeqUtil
  import opened PyValue
  import PyStr
  import PyInt
  import opened TrainerVocab
  import TrainerCards

  const A4_MODE: string := "A4 Arbeitsblatt"
  const CARDS_MODE: string := "QR Lernkarten"
  const KDP_MODE: string := "KDP Buch"
  const TRAINER_V2: string := "trainer_v2"

  const V2_TITLE: string := "Eddie Trainer V2"
  const CARDS_TITLE: string := "Eddie \U{2013} QR Lernkarten"
  const A4_LEGACY_TITLE: string := "Eddie \U{2013} Arbeitsblatt"

  const NOT_A_DICT: string := "run_export: data must be a dict"
  const DEFAULT_MIN_PAGES: int := 24
  const WRITING_LINES_PER_PAGE: int := 5

  /** The keyword arguments of `run_export`. */
  type Kwargs = map<string, Value>

  /** `kwargs.get(key, default)`. */
  function Kw(kw: Kwargs, key: string, default: Value): Value {
    if key in kw then kw[key] else default
  }

  /** The exporter call a request ends in. `A4Call` stands for
      `export_trainer_a4`, which is not part of this model; `CardsCall`
      and `KdpCall` for the exporters of TrainerCards and TrainerKdp. */
  datatype Call =
    | A4Call(data: Value, title: Value, subtitle: Value, watermark: Value, lines: Value, policy: Value)
    | CardsCall(data: Value, title: Value, subtitle: Value, watermark: Value, policy: Value)
    | KdpCall(data: Value, title: Value, subtitle: Value, watermark: Value, policy: Value, minPages: int)

  /** The three modes the switch knows. */
  predicate KnownMode(m: string) {
    m == A4_MODE || m == CARDS_MODE || m == KDP_MODE
  }

  /** `str(mode or "").strip()`. */
  function ModeText(mode: Value): string {
    PyStr.Strip(Text(Or(mode, Str(""))))
  }

  /** `str(data.get("module") or "").strip()`. */
  function ModuleOf(data: Value): string
    requires data.Dict?
  {
    PyStr.Strip(Text(Or(Get(data, "module", PyNone), Str(""))))
  }

  // ---------------------------------------------------------------------
  // int()
  // ---------------------------------------------------------------------

  predicate IsDigit(c: char) {
    '0' <= c <= '9'
  }

  predicate AllDigits(s: string) {
    forall k :: 0 <= k < |s| ==> IsDigit(s[k])
  }

  /** The value of a string of decimal digits. */
  function DigitsValue(s: string): (n: nat)
    requires AllDigits(s)
  {
    if s == [] then 0
    else DigitsValue(s[..|s| - 1]) * 10 + (s[|s| - 1] as int - '0' as int)
  }

  /** `int(s)` for a string: an optional sign and at least one decimal
      digit, with whitespace around them. */
  function ParseInt(s: string): (r: Option<int>) {
    var t := PyStr.Strip(s);
    if t != [] && (t[0] == '-' || t[0] == '+') then
      var ds := t[1..];
      if ds != [] && AllDigits(ds) then
        var n: int := DigitsValue(ds);
        Some(if t[0] == '-' then -n else n)
      else None
    else if t != [] && AllDigits(t) then Some(DigitsValue(t))
    else None
  }

  /** The name Python gives the type of a value in a `TypeError`. */
  function TypeName(v: Value): string {
    match v
    case PyNone => "NoneType"
    case Bool(_) => "bool"
    case Int(_) => "int"
    case Str(_) => "str"
    case Bytes(_) => "bytes"
    case List(_) => "list"
    case Dict(_) => "dict"
    case Other(_, _) => "object"
  }

  /** `int(v)`: an int is itself, a bool is 0 or 1, a string is parsed;
      anything else raises. */
  function IntOf(v: Value): Result<int, string> {
    match v
    case Int(i) => Ok(i)
    case Bool(b) => Ok(if b then 1 else 0)
    case Str(s) =>
      (match ParseInt(s)
       case Some(n) => Ok(n)
       case None => Err("invalid literal for int() with base 10: " + StrRepr(s)))
    case _ => Err("int() argument must be a string, a bytes-like object or a real number, not " +
                  StrRepr(TypeName(v)))
  }

  /** The digits of a natural read back give the natural. */
  lemma {:induction false} DecimalDigitsValue(n: nat)
    ensures AllDigits(PyInt.NatToDecimal(n))
    ensures DigitsValue(PyInt.NatToDecimal(n)) == n
  {
    var s := PyInt.NatToDecimal(n);
    if n >= 10 {
      DecimalDigitsValue(n / 10);
      assert s[..|s| - 1] == PyInt.NatToDecimal(n / 10);
    }
  }

  /** The text of an int has no whitespace around it. */
  lemma DecimalTrimmed(i: int)
    ensures PyStr.Strip(PyInt.IntToDecimal(i)) == PyInt.IntToDecimal(i)
  {
    var s := PyInt.IntToDecimal(i);
    assert !PyStr.IsSpace(s[0]) && !PyStr.IsSpace(s[|s| - 1]);
    PyStr.TrimmedFixed(s);
  }

  /** A stripped run of digits parses as its value. */
  lemma ParseUnsigned(t: string, n: nat)
    requires t != [] && AllDigits(t) && PyStr.Strip(t) == t && DigitsValue(t) == n
    ensures ParseInt(t) == Some(n)
  {
    assert IsDigit(t[0]);
  }

  /** A stripped minus sign before a run of digits parses as the negated
      value. */
  lemma ParseNegative(t: string, n: nat)
    requires |t| >= 2 && t[0] == '-' && AllDigits(t[1..]) && PyStr.Strip(t) == t && DigitsValue(t[1..]) == n
    ensures ParseInt(t) == Some(-(n as int))
  {
  }

  /** `int(str(i)) == i`: the text of any int, as a keyword argument,
      gives that int back. */
  lemma IntOfDecimal(i: int)
    ensures IntOf(Str(PyInt.IntToDecimal(i))) == Ok(i)
  {
    var s := PyInt.IntToDecimal(i);
    DecimalTrimmed(i);
    if i < 0 {
      DecimalDigitsValue(-i);
      assert s[1..] == PyInt.NatToDecimal(-i);
      ParseNegative(s, -i);
      IntOfParsed(s, i);
    } else {
      DecimalDigitsValue(i);
      ParseUnsigned(s, i);
      IntOfParsed(s, i);
    }
  }

  /** A string that parses as n converts to n. */
  lemma IntOfParsed(s: string, n: int)
    requires ParseInt(s) == Some(n)
    ensures IntOf(Str(s)) == Ok(n)
  {
  }

  // ---------------------------------------------------------------------
  // The legacy bridge
  // ---------------------------------------------------------------------

  /** `data.get("items") or []`. */
  function ItemsOf(data: Value): Value
    requires data.Dict?
  {
    Or(Get(data, "items", PyNone), List([]))
  }

  /** A list of items iterates as itself. */
  lemma ItemsOfList(data: Value)
    requires data.Dict? && Get(data, "items", PyNone).List?
    ensures ItemsOf(data).List? && ItemsOf(data).items == Get(data, "items", PyNone).items
  {
  }

  /** What the bridge loop appends for one item: a vocabulary dict for a
      dict item with a non-empty stripped term. */
  function BridgedItem(it: Value): Option<Value> {
    if it.Dict? && Term(it) != [] then
      Some(Dict([("word", Str(Term(it))), ("translation", Str(""))]))
    else None
  }

  /** The dict the bridge returns, from its parts. */
  function Payload(subject: string, vocab: seq<Value>, lines: bool, items: Value): Value {
    Dict([("module", Str(TRAINER_V2)),
          ("subject", Str(subject)),
          ("vocab", List(vocab)),
          ("assets", Dict([("images", List([]))])),
          ("options", Dict([("writing_lines_per_page", Int(WRITING_LINES_PER_PAGE)), ("lines", Bool(lines))])),
          ("items", items)])
  }

  /** The payload `_bridge_legacy_items_to_trainer_v2` returns. The caller
      only bridges a payload whose items are a list. */
  function BridgedOf(data: Value, defaultLines: Value): Value
    requires data.Dict? && ItemsOf(data).List?
  {
    Payload(Subject(data), FilterMap(ItemsOf(data).items, BridgedItem), Truthy(defaultLines),
            Get(data, "items", PyNone))
  }

  /** `_bridge_legacy_items_to_trainer_v2(data, default_lines=...)`. */
  method BridgeLegacy(data: Value, defaultLines: Value) returns (bridged: Value)
    requires data.Dict? && ItemsOf(data).List?
    ensures bridged == BridgedOf(data, defaultLines)
  {
    var subject := PyStr.Strip(Text(Or(Get(data, "subject", PyNone), Str(""))));
    var items := ItemsOf(data).items;
    var vocab: seq<Value> := [];
    for i := 0 to |items|
      invariant vocab == FilterMap(items[..i], BridgedItem)
    {
      var it := items[i];
      FilterMapSnoc(items[..i], it, BridgedItem);
      assert items[..i + 1] == items[..i] + [it];
      if !it.Dict? {
        continue;
      }
      var word := PyStr.Strip(Text(Get(it, "term", Str(""))));
      if word != [] {
        vocab := vocab + [Dict([("word", Str(word)), ("translation", Str(""))])];
      }
    }
    assert items[..|items|] == items;
    bridged := Payload(subject, vocab, Truthy(defaultLines), Get(data, "items", PyNone));
  }

  /** The vocabulary dict made for one item reads back as the entry the
      exporters make of that item's term. */
  lemma BridgedItemEntry(it: Value)
    ensures match BridgedItem(it)
      case None => LegacyEntry(it) == None
      case Some(d) => d.Dict? && LegacyEntry(it).Some? && DictEntry(d) == LegacyEntry(it) &&
                      KeptEntry(LegacyEntry(it).value) == LegacyEntry(it)
  {
    if it.Dict? && Term(it) != [] {
      var d := BridgedItem(it).value;
      FieldStripped(it, "term");
      LookupAt(d.entries, 0, "word");
      LookupAt(d.entries, 1, "translation");
      assert V2Entry(d) == Entry(Term(it), "");
    }
  }

  /** The exporters read from the bridged vocabulary exactly the entries
      they would read from the legacy items themselves. */
  lemma {:induction false} BridgedEntries(items: seq<Value>)
    ensures V2Entries(FilterMap(items, BridgedItem)) == FilterMap(items, LegacyEntry)
  {
    if items != [] {
      var n := |items| - 1;
      var init, last := items[..n], items[n];
      assert items == init + [last];
      BridgedEntries(init);
      BridgedItemEntry(last);
      FilterMapSnoc(init, last, BridgedItem);
      FilterMapSnoc(init, last, LegacyEntry);
      var dicts := FilterMap(init, BridgedItem);
      if BridgedItem(last).Some? {
        var d := BridgedItem(last).value;
        var e := LegacyEntry(last).value;
        assert FilterMap(items, BridgedItem) == dicts + [d];
        FilterMapSnoc(dicts, d, DictEntry);
        assert FilterMap(dicts + [d], DictEntry) == FilterMap(dicts, DictEntry) + [e];
        FilterMapSnoc(FilterMap(dicts, DictEntry), e, KeptEntry);
        assert V2Entries(dicts + [d]) == V2Entries(dicts) + [e];
        assert FilterMap(items, LegacyEntry) == FilterMap(init, LegacyEntry) + [e];
      } else {
        assert FilterMap(items, BridgedItem) == dicts;
        assert FilterMap(items, LegacyEntry) == FilterMap(init, LegacyEntry);
      }
    }
  }

  /** What each key of the bridged payload holds. */
  lemma PayloadFields(subject: string, vocab: seq<Value>, lines: bool, items: Value)
    ensures var b := Payload(subject, vocab, lines, items);
      b.Dict? &&
      Get(b, "module", PyNone) == Str(TRAINER_V2) &&
      Get(b, "subject", PyNone) == Str(subject) &&
      Get(b, "vocab", PyNone) == List(vocab) &&
      Get(b, "assets", PyNone) == Dict([("images", List([]))]) &&
      Get(b, "options", PyNone) ==
        Dict([("writing_lines_per_page", Int(WRITING_LINES_PER_PAGE)), ("lines", Bool(lines))]) &&
      Get(b, "items", PyNone) == items
  {
    var es := Payload(subject, vocab, lines, items).entries;
    LookupAt(es, 0, "module");
    LookupAt(es, 1, "subject");
    LookupAt(es, 2, "vocab");
    LookupAt(es, 3, "assets");
    LookupAt(es, 4, "options");
    LookupAt(es, 5, "items");
  }

  lemma BridgedFields(data: Value, defaultLines: Value)
    requires data.Dict? && ItemsOf(data).List?
    ensures var b := BridgedOf(data, defaultLines);
      b.Dict? &&
      Get(b, "module", PyNone) == Str(TRAINER_V2) &&
      Get(b, "subject", PyNone) == Str(Subject(data)) &&
      Get(b, "vocab", PyNone) == List(FilterMap(ItemsOf(data).items, BridgedItem)) &&
      Get(b, "assets", PyNone) == Dict([("images", List([]))]) &&
      Get(b, "options", PyNone) ==
        Dict([("writing_lines_per_page", Int(WRITING_LINES_PER_PAGE)), ("lines", Bool(Truthy(defaultLines)))]) &&
      Get(b, "items", PyNone) == Get(data, "items", PyNone)
  {
    PayloadFields(Subject(data), FilterMap(ItemsOf(data).items, BridgedItem), Truthy(defaultLines),
                  Get(data, "items", PyNone));
  }

  /** The bridged payload keeps the subject, already stripped. */
  lemma BridgeKeepsSubject(data: Value, defaultLines: Value)
    requires data.Dict? && ItemsOf(data).List?
    ensures Subject(BridgedOf(data, defaultLines)) == Subject(data)
  {
    BridgedFields(data, defaultLines);
    PyStr.StripIdempotent(Text(Or(Get(data, "subject", PyNone), Str(""))));
  }

  /** The exporters read from the bridged payload the legacy vocabulary:
      the non-empty terms of the dict items, in order, with empty
      translations. */
  lemma BridgeVocab(data: Value, defaultLines: Value)
    requires data.Dict? && ItemsOf(data).List?
    ensures CoercedVocab(BridgedOf(data, defaultLines)) == FilterMap(ItemsOf(data).items, LegacyEntry)
  {
    var b := BridgedOf(data, defaultLines);
    var xs := ItemsOf(data).items;
    BridgedFields(data, defaultLines);
    BridgedEntries(xs);
    if FilterMap(xs, BridgedItem) == [] && xs != [] {
      assert Get(b, "items", PyNone) == List(xs);
    }
  }

  /** The bridged payload keeps the legacy items, so the cards read the
      same legacy lookup from it. */
  lemma BridgeKeepsLookup(data: Value, defaultLines: Value)
    requires data.Dict? && ItemsOf(data).List?
    ensures TrainerCards.LegacyLookup(BridgedOf(data, defaultLines)) == TrainerCards.LegacyLookup(data)
  {
    BridgedFields(data, defaultLines);
  }

  /** The bridged payload carries no images, names the "trainer_v2"
      module and sets `options.lines` to `bool(default_lines)`. */
  lemma BridgeShape(data: Value, defaultLines: Value)
    requires data.Dict? && ItemsOf(data).List?
    ensures var b := BridgedOf(data, defaultLines);
      CoercedImages(b) == [] &&
      ModuleOf(b) == TRAINER_V2 &&
      Get(b, "options", PyNone).Dict? &&
      Get(Get(b, "options", PyNone), "lines", PyNone) == Bool(Truthy(defaultLines))
  {
    var b := BridgedOf(data, defaultLines);
    BridgedFields(data, defaultLines);
    LookupAt([("images", List([]))], 0, "images");
    LookupAt([("writing_lines_per_page", Int(WRITING_LINES_PER_PAGE)), ("lines", Bool(Truthy(defaultLines)))],
             1, "lines");
    assert PyStr.Trimmed(TRAINER_V2);
    PyStr.TrimmedFixed(TRAINER_V2);
  }

  /** When the legacy payload carries no non-empty `vocab` list of its own,
      bridging changes nothing the exporters read as vocabulary. */
  lemma BridgeKeepsVocab(data: Value, defaultLines: Value)
    requires data.Dict? && Get(data, "items", PyNone).List?
    requires var v := Get(data, "vocab", PyNone); !(v.List? && v.items != [])
    ensures CoercedVocab(BridgedOf(data, defaultLines)) == CoercedVocab(data)
  {
    var items := Get(data, "items", PyNone).items;
    ItemsOfList(data);
    BridgeVocab(data, defaultLines);
    if items == [] {
      assert FilterMap(items, LegacyEntry) == [];
    }
    assert CoercedVocab(data) == FilterMap(items, LegacyEntry);
  }

  // ---------------------------------------------------------------------
  // run_export
  // ---------------------------------------------------------------------

  /** The call a known mode makes with a payload: the KDP book needs
      `int(min_pages)`, which may raise. */
  function Dispatch(m: string, payload: Value, kw: Kwargs, a4Title: string): Result<Call, string>
    requires KnownMode(m)
  {
    var subtitle := Kw(kw, "subtitle", PyNone);
    var watermark := Kw(kw, "watermark", Bool(true));
    var policy := Kw(kw, "policy", PyNone);
    if m == A4_MODE then
      Ok(A4Call(payload, Kw(kw, "title", Str(a4Title)), subtitle, watermark,
                Kw(kw, "lines", Bool(true)), policy))
    else if m == CARDS_MODE then
      Ok(CardsCall(payload, Kw(kw, "title", Str(CARDS_TITLE)), subtitle, watermark, policy))
    else
      match IntOf(Kw(kw, "min_pages", Int(DEFAULT_MIN_PAGES)))
      case Err(e) => Err(e)
      case Ok(n) => Ok(KdpCall(payload, Kw(kw, "title", Str(V2_TITLE)), subtitle, watermark, policy, n))
  }

  /** The `default_lines` each mode bridges a legacy payload with. */
  function LegacyLines(m: string, kw: Kwargs): Value {
    if m == A4_MODE then Kw(kw, "lines", Bool(true))
    else if m == CARDS_MODE then Bool(false)
    else Bool(true)
  }

  /** Whether the switch takes the legacy route: the module is not
      "trainer_v2" and the items are a list. */
  predicate IsLegacy(data: Value)
    requires data.Dict?
  {
    ModuleOf(data) != TRAINER_V2 && Get(data, "items", PyNone).List?
  }

  /** `run_export(mode, data, **kwargs)`, up to the exporter it calls. It
      succeeds exactly for a dict payload, a known mode, a "trainer_v2"
      module or a legacy items list, and (for the KDP book) a `min_pages`
      that `int()` accepts. */
  function RunExport(mode: Value, data: Value, kw: Kwargs): (r: Result<Call, string>)
    ensures !data.Dict? ==> r == Err(NOT_A_DICT)
    ensures r.Ok? <==>
      data.Dict? && KnownMode(ModeText(mode)) &&
      (ModuleOf(data) == TRAINER_V2 || Get(data, "items", PyNone).List?) &&
      (ModeText(mode) == KDP_MODE ==> IntOf(Kw(kw, "min_pages", Int(DEFAULT_MIN_PAGES))).Ok?)
  {
    if !data.Dict? then Err(NOT_A_DICT)
    else
      var m := ModeText(mode);
      var moduleName := ModuleOf(data);
      if moduleName == TRAINER_V2 then
        if KnownMode(m) then Dispatch(m, data, kw, V2_TITLE)
        else Err("Unsupported export mode for trainer_v2: " + StrRepr(m))
      else if Get(data, "items", PyNone).List? && KnownMode(m) then
        Dispatch(m, BridgedOf(data, LegacyLines(m, kw)), kw, A4_LEGACY_TITLE)
      else Err("Unsupported export request: module=" + StrRepr(moduleName) + ", mode=" + StrRepr(m))
  }

  /** The exporter a successful request reaches is the one its stripped
      mode names. */
  lemma RunExportTarget(mode: Value, data: Value, kw: Kwargs)
    requires RunExport(mode, data, kw).Ok?
    ensures var c := RunExport(mode, data, kw).value;
      (c.A4Call? <==> ModeText(mode) == A4_MODE) &&
      (c.CardsCall? <==> ModeText(mode) == CARDS_MODE) &&
      (c.KdpCall? <==> ModeText(mode) == KDP_MODE)
  {
  }

  /** A "trainer_v2" module takes precedence over legacy items: the payload
      goes to the exporter unchanged, and an unknown mode raises the
      trainer_v2 error. */
  lemma V2PassesPayload(mode: Value, data: Value, kw: Kwargs)
    requires data.Dict? && ModuleOf(data) == TRAINER_V2
    ensures var r := RunExport(mode, data, kw);
      (r.Ok? ==> r.value.data == data) &&
      (!KnownMode(ModeText(mode)) ==>
         r == Err("Unsupported export mode for trainer_v2: " + StrRepr(ModeText(mode))))
  {
  }

  /** The call made carries the payload it was given. */
  lemma DispatchPayload(m: string, payload: Value, kw: Kwargs, a4Title: string)
    requires KnownMode(m) && Dispatch(m, payload, kw, a4Title).Ok?
    ensures Dispatch(m, payload, kw, a4Title).value.data == payload
  {
  }

  /** The legacy route with a known mode dispatches the bridged payload. */
  lemma LegacyRoute(mode: Value, data: Value, kw: Kwargs)
    requires data.Dict? && IsLegacy(data) && KnownMode(ModeText(mode))
    ensures RunExport(mode, data, kw) ==
      Dispatch(ModeText(mode), BridgedOf(data, LegacyLines(ModeText(mode), kw)), kw, A4_LEGACY_TITLE)
  {
  }

  /** A legacy request is bridged before it is exported: with the `lines`
      argument (default true) for the worksheet, false for the cards and
      true for the book; so the exporter reads the legacy vocabulary and
      the matching `options.lines`. */
  lemma LegacyIsBridged(mode: Value, data: Value, kw: Kwargs)
    requires data.Dict? && IsLegacy(data)
    requires RunExport(mode, data, kw).Ok?
    ensures var m := ModeText(mode);
      var lines := if m == A4_MODE then Kw(kw, "lines", Bool(true)) else Bool(m != CARDS_MODE);
      var c := RunExport(mode, data, kw).value;
      c.data == BridgedOf(data, lines) &&
      CoercedVocab(c.data) == FilterMap(Get(data, "items", PyNone).items, LegacyEntry) &&
      Get(c.data, "options", PyNone).Dict? &&
      Get(Get(c.data, "options", PyNone), "lines", PyNone) == Bool(Truthy(lines))
  {
    var m := ModeText(mode);
    var lines := LegacyLines(m, kw);
    var b := BridgedOf(data, lines);
    LegacyRoute(mode, data, kw);
    DispatchPayload(m, b, kw, A4_LEGACY_TITLE);
    assert RunExport(mode, data, kw).value.data == b;
    BridgeVocab(data, lines);
    BridgeShape(data, lines);
    ItemsOfList(data);
  }

  /** A request that is neither "trainer_v2" nor a legacy items list, or
      a legacy one with an unknown mode, raises the generic error. */
  lemma UnsupportedRequest(mode: Value, data: Value, kw: Kwargs)
    requires data.Dict? && ModuleOf(data) != TRAINER_V2
    requires !Get(data, "items", PyNone).List? || !KnownMode(ModeText(mode))
    ensures RunExport(mode, data, kw) ==
      Err("Unsupported export request: module=" + StrRepr(ModuleOf(data)) +
          ", mode=" + StrRepr(ModeText(mode)))
  {
  }

  /** The defaults of the keyword arguments: titles by route and mode,
      the watermark on, no subtitle or policy, and a 24-page book. */
  lemma RunExportDefaults(mode: Value, data: Value)
    requires RunExport(mode, data, map[]).Ok?
    ensures var c := RunExport(mode, data, map[]).value;
      c.subtitle == PyNone && c.watermark == Bool(true) && c.policy == PyNone &&
      (c.KdpCall? ==> c.minPages == DEFAULT_MIN_PAGES && c.title == Str(V2_TITLE)) &&
      (c.CardsCall? ==> c.title == Str(CARDS_TITLE)) &&
      (c.A4Call? ==>
         c.lines == Bool(true) &&
         c.title == Str(if ModuleOf(data) == TRAINER_V2 then V2_TITLE else A4_LEGACY_TITLE))
  {
  }

  /** The mode is compared after stripping: surrounding whitespace never
      changes the outcome. */
  lemma ModeStripped(s: string, data: Value, kw: Kwargs)
    ensures RunExport(Str(s), data, kw) == RunExport(Str(PyStr.Strip(s)), data, kw)
  {
    PyStr.StripIdempotent(s);
    assert ModeText(Str(s)) == ModeText(Str(PyStr.Strip(s)));
  }
}

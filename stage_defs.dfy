/** Stage definitions as both dashboards load them from the `crmStages`
    setting: the keyword-based default colour and icon, the normalisation of
    legacy string lists and object lists into `{name, color, icon}`, and the
    hex-colour helpers used to tint a stage card. */
module StageDefs {
  import opened Optional
  import opened Text
  import opened Leads

  // --------------------------------------------------------------- defaults

  /** None of the five stage keywords occurs. */
  predicate NoKeyword(key: string) {
    !Contains(key, "convert") && !Contains(key, "progress") && !Contains(key, "lost")
    && !Contains(key, "new") && !Contains(key, "qual")
  }

  /** Default icon: the first keyword of convert, progress, lost, new, qual
      found in the lowercased name. */
  function DefaultIcon(name: string): (icon: string)
    ensures var key := Lower(name);
      && (Contains(key, "convert") ==> icon == "\U{2705}")
      && (!Contains(key, "convert") && Contains(key, "progress") ==> icon == "\U{23F3}")
      && (!Contains(key, "convert") && !Contains(key, "progress") && Contains(key, "lost") ==> icon == "\U{274C}")
      && ((!Contains(key, "convert") && !Contains(key, "progress") && !Contains(key, "lost")
          && Contains(key, "new")) ==> icon == "\U{1F195}")
      && ((!Contains(key, "convert") && !Contains(key, "progress") && !Contains(key, "lost")
          && !Contains(key, "new") && Contains(key, "qual")) ==> icon == "\U{1F3AF}")
      && (NoKeyword(key) ==> icon == "\U{1F4CA}")
  {
    var key := Lower(name);
    if Contains(key, "convert") then "\U{2705}"
    else if Contains(key, "progress") then "\U{23F3}"
    else if Contains(key, "lost") then "\U{274C}"
    else if Contains(key, "new") then "\U{1F195}"
    else if Contains(key, "qual") then "\U{1F3AF}"
    else "\U{1F4CA}"
  }

  /** Default colour, by the same keywords in the same order. */
  function DefaultColor(name: string): (color: string)
    ensures var key := Lower(name);
      && (Contains(key, "convert") ==> color == "#10b981")
      && (!Contains(key, "convert") && Contains(key, "progress") ==> color == "#f59e0b")
      && (!Contains(key, "convert") && !Contains(key, "progress") && Contains(key, "lost") ==> color == "#ef4444")
      && ((!Contains(key, "convert") && !Contains(key, "progress") && !Contains(key, "lost")
          && Contains(key, "new")) ==> color == "#3b82f6")
      && ((!Contains(key, "convert") && !Contains(key, "progress") && !Contains(key, "lost")
          && !Contains(key, "new") && Contains(key, "qual")) ==> color == "#8b5cf6")
      && (NoKeyword(key) ==> color == "#3b82f6")
  {
    var key := Lower(name);
    if Contains(key, "convert") then "#10b981"
    else if Contains(key, "progress") then "#f59e0b"
    else if Contains(key, "lost") then "#ef4444"
    else if Contains(key, "new") then "#3b82f6"
    else if Contains(key, "qual") then "#8b5cf6"
    else "#3b82f6"
  }

  /** The two defaults are chosen by the same rule: names given the same
      icon are given the same colour. */
  lemma IconDeterminesColor(a: string, b: string)
    requires DefaultIcon(a) == DefaultIcon(b)
    ensures DefaultColor(a) == DefaultColor(b)
  {
  }

  /** The defaults ignore letter case. */
  lemma DefaultsIgnoreCase(name: string)
    ensures DefaultIcon(Lower(name)) == DefaultIcon(name)
    ensures DefaultColor(Lower(name)) == DefaultColor(name)
  {
    LowerIdempotent(name);
  }

  // ---------------------------------------------------------- normalisation

  /** An element of the stored stage array: a string, an object with
      optional `name`/`color`/`icon`, or a falsy non-string (null). */
  datatype StageItem = Text(s: string) | Record(name: Option<string>, color: Option<string>, icon: Option<string>) | Null

  datatype StageDef = StageDef(name: string, color: string, icon: string)

  /** The legacy form: `{name, color: default, icon: default}`. */
  function FromName(name: string): StageDef {
    StageDef(name, DefaultColor(name), DefaultIcon(name))
  }

  /** The object form: `name || String(s)`, own truthy colour and icon kept,
      defaults for the rest. A string element stringifies to itself and an
      object to `[object Object]`. */
  function FromItem(item: StageItem): StageDef
    requires !item.Null?
  {
    match item
    case Text(s) => FromName(s)
    case Record(n, c, i) =>
      var name := if Str(n) != "" then n.value else "[object Object]";
      StageDef(name,
        if Str(c) != "" then c.value else DefaultColor(name),
        if Str(i) != "" then i.value else DefaultIcon(name))
  }

  /** The name of an element of a legacy list: the string itself, and `''`
      for a null element, whose defaults are those of `''`. */
  function LegacyName(item: StageItem): string
    requires !item.Record?
  {
    if item.Text? then item.s else ""
  }

  /** The stored stage list as the dashboards load it. A stored value that
      is not an array, or does not parse, gives no stages. A list whose first
      element is a string is read in the legacy form, where a later object
      element makes `toLowerCase` throw; otherwise every element is read in
      the object form, where a null element makes `.name` throw. A throw
      gives no stages. */
  function Normalize(stored: StorageValue<StageItem>): (defs: seq<StageDef>)
    ensures !stored.Array? ==> defs == []
    ensures defs != [] ==> stored.Array? && |defs| == |stored.elems|
    ensures (stored.Array? && stored.elems != [] && stored.elems[0].Text?
      && forall i :: 0 <= i < |stored.elems| ==> !stored.elems[i].Record?) ==>
        |defs| == |stored.elems|
        && forall i :: 0 <= i < |defs| ==> defs[i] == FromName(LegacyName(stored.elems[i]))
    ensures (stored.Array? && (stored.elems == [] || !stored.elems[0].Text?)
      && forall i :: 0 <= i < |stored.elems| ==> !stored.elems[i].Null?) ==>
        |defs| == |stored.elems|
        && forall i :: 0 <= i < |defs| ==> defs[i] == FromItem(stored.elems[i])
  {
    if !stored.Array? then []
    else
      var items := stored.elems;
      if items != [] && items[0].Text? then
        if exists i :: 0 <= i < |items| && items[i].Record? then []
        else seq(|items|, i requires 0 <= i < |items| => FromName(LegacyName(items[i])))
      else
        if exists i :: 0 <= i < |items| && items[i].Null? then []
        else seq(|items|, i requires 0 <= i < |items| => FromItem(items[i]))
  }

  /** A legacy list of names becomes one definition per name, in order, with
      the default colour and icon. */
  lemma NormalizeLegacy(names: seq<string>)
    requires names != []
    ensures var defs := Normalize(Array(seq(|names|, i requires 0 <= i < |names| => Text(names[i]))));
      |defs| == |names|
      && forall i :: 0 <= i < |names| ==>
        defs[i].name == names[i] && defs[i].color == DefaultColor(names[i]) && defs[i].icon == DefaultIcon(names[i])
  {
  }

  /** A list of objects keeps each object's own truthy colour and icon and
      fills the others from its name. */
  lemma NormalizeRecords(items: seq<StageItem>)
    requires forall i :: 0 <= i < |items| ==> items[i].Record?
    ensures var defs := Normalize(Array(items));
      |defs| == |items|
      && forall i :: 0 <= i < |items| ==>
        var it := items[i];
        && (Str(it.name) != "" ==> defs[i].name == it.name.value)
        && (Str(it.color) != "" ==> defs[i].color == it.color.value)
        && (Str(it.color) == "" ==> defs[i].color == DefaultColor(defs[i].name))
        && (Str(it.icon) != "" ==> defs[i].icon == it.icon.value)
        && (Str(it.icon) == "" ==> defs[i].icon == DefaultIcon(defs[i].name))
  {
  }

  /** A mixed list that makes the normalisation throw gives no stages. */
  lemma NormalizeThrows(items: seq<StageItem>, i: int)
    requires 0 <= i < |items|
    requires (items[0].Text? && items[i].Record?) || (!items[0].Text? && items[i].Null?)
    ensures Normalize(Array(items)) == []
  {
  }

  // ------------------------------------------------------------ hex colours

  predicate IsHexDigit(c: char) {
    '0' <= c <= '9' || 'a' <= c <= 'f' || 'A' <= c <= 'F'
  }

  /** `#` followed by exactly three or six hex digits, in either case. */
  predicate IsHexColor(c: string) {
    (|c| == 4 || |c| == 7) && c[0] == '#' && forall i :: 1 <= i < |c| ==> IsHexDigit(c[i])
  }

  function HexDigitValue(c: char): (v: nat)
    requires IsHexDigit(c)
    ensures v < 16
  {
    if '0' <= c <= '9' then c as int - '0' as int
    else if 'a' <= c <= 'f' then c as int - 'a' as int + 10
    else c as int - 'A' as int + 10
  }

  /** `parseInt(h, 16)` for a string of hex digits. */
  function HexValue(h: string): nat
    requires forall i :: 0 <= i < |h| ==> IsHexDigit(h[i])
  {
    if h == [] then 0 else HexValue(h[..|h| - 1]) * 16 + HexDigitValue(h[|h| - 1])
  }

  /** The six digits a hex colour stands for: a three-digit colour doubles
      each digit. */
  function SixDigits(hex: string): (d: string)
    requires IsHexColor(hex)
    ensures |d| == 6 && forall i :: 0 <= i < 6 ==> IsHexDigit(d[i])
  {
    if |hex| == 4 then [hex[1], hex[1], hex[2], hex[2], hex[3], hex[3]] else hex[1..]
  }

  datatype Rgb = Rgb(r: int, g: int, b: int)

  /** Reference reading of a colour: each component is one pair of hex
      digits. */
  function RgbOf(hex: string): (c: Rgb)
    requires IsHexColor(hex)
    ensures 0 <= c.r <= 255 && 0 <= c.g <= 255 && 0 <= c.b <= 255
  {
    var d := SixDigits(hex);
    Rgb(16 * HexDigitValue(d[0]) + HexDigitValue(d[1]),
        16 * HexDigitValue(d[2]) + HexDigitValue(d[3]),
        16 * HexDigitValue(d[4]) + HexDigitValue(d[5]))
  }

  /** The three bytes of a 24-bit number are recovered by shifting and
      masking. */
  lemma ByteSplit(r: int, g: int, b: int)
    requires 0 <= r < 256 && 0 <= g < 256 && 0 <= b < 256
    ensures (r * 65536 + g * 256 + b) / 65536 % 256 == r
    ensures (r * 65536 + g * 256 + b) / 256 % 256 == g
    ensures (r * 65536 + g * 256 + b) % 256 == b
  {
    var big := r * 65536 + g * 256 + b;
    assert big / 256 == r * 256 + g;
    assert big / 65536 == r;
  }

  lemma HexValueSnoc(h: string, k: int)
    requires forall i :: 0 <= i < |h| ==> IsHexDigit(h[i])
    requires 0 <= k < |h|
    ensures HexValue(h[..k + 1]) == HexValue(h[..k]) * 16 + HexDigitValue(h[k])
  {
    assert h[..k + 1][..k] == h[..k];
  }

  /** Six hex digits read as one number are three bytes, most significant
      first. */
  lemma HexValueSix(h: string)
    requires |h| == 6 && forall i :: 0 <= i < 6 ==> IsHexDigit(h[i])
    ensures HexValue(h) == (16 * HexDigitValue(h[0]) + HexDigitValue(h[1])) * 65536
      + (16 * HexDigitValue(h[2]) + HexDigitValue(h[3])) * 256
      + (16 * HexDigitValue(h[4]) + HexDigitValue(h[5]))
  {
    assert HexValue(h[..0]) == 0;
    HexValueSnoc(h, 0);
    HexValueSnoc(h, 1);
    HexValueSnoc(h, 2);
    HexValueSnoc(h, 3);
    HexValueSnoc(h, 4);
    HexValueSnoc(h, 5);
    assert h[..6] == h;
  }

  /** Strip `#`, double a three-digit form, parse as one number and take
      bits 16-23, 8-15 and 0-7 (`>> 16 & 255`, `>> 8 & 255`, `& 255`). */
  method HexToRgb(hex: string) returns (c: Rgb)
    requires IsHexColor(hex)
    ensures c == RgbOf(hex)
  {
    var h := hex[1..];
    if |h| == 3 {
      h := [h[0], h[0], h[1], h[1], h[2], h[2]];
    }
    assert h == SixDigits(hex);
    var bigint := HexValue(h);
    HexValueSix(h);
    var r, g, b := RgbOf(hex).r, RgbOf(hex).g, RgbOf(hex).b;
    assert bigint == r * 65536 + g * 256 + b;
    ByteSplit(r, g, b);
    c := Rgb(bigint / 65536 % 256, bigint / 256 % 256, bigint % 256);
  }

  lemma HexDigitIgnoresCase(ch: char)
    ensures IsHexDigit(LowerChar(ch)) <==> IsHexDigit(ch)
    ensures IsHexDigit(ch) ==> HexDigitValue(LowerChar(ch)) == HexDigitValue(ch)
  {
  }

  /** The colour test ignores letter case, as the pattern's `i` flag says,
      and a colour stands for the same components in either case. */
  lemma HexColorIgnoresCase(c: string)
    ensures IsHexColor(Lower(c)) <==> IsHexColor(c)
    ensures IsHexColor(c) ==> RgbOf(Lower(c)) == RgbOf(c)
  {
    var l := Lower(c);
    forall i | 0 <= i < |c| ensures IsHexDigit(l[i]) <==> IsHexDigit(c[i]) {
      HexDigitIgnoresCase(c[i]);
    }
    if IsHexColor(c) {
      var d, e := SixDigits(c), SixDigits(l);
      forall i | 0 <= i < 6 ensures HexDigitValue(e[i]) == HexDigitValue(d[i]) {
        assert e[i] == LowerChar(d[i]);
        HexDigitIgnoresCase(d[i]);
      }
    }
  }

  /** A three-digit colour reads the same as its doubled six-digit form. */
  lemma ShortHexEqualsLong(hex: string)
    requires IsHexColor(hex) && |hex| == 4
    ensures IsHexColor("#" + SixDigits(hex))
    ensures RgbOf(hex) == RgbOf("#" + SixDigits(hex))
  {
    assert SixDigits("#" + SixDigits(hex)) == SixDigits(hex);
  }

  /** The look of a stage card: a tint of the stage's own hex colour, else
      the named preset it names, else the blue preset. */
  datatype CardLook = Tint(rgb: Rgb) | Preset(name: string)

  const PresetNames: set<string> := {"blue", "green", "yellow", "red", "purple"}

  function CardLookOf(color: string): (look: CardLook)
    ensures look.Tint? <==> IsHexColor(color)
    ensures IsHexColor(color) ==> look == Tint(RgbOf(color))
    ensures look.Preset? ==> look.name in PresetNames
    ensures look.Preset? && color in PresetNames ==> look.name == color
    ensures !IsHexColor(color) && color !in PresetNames ==> look == Preset("blue")
  {
    if IsHexColor(color) then Tint(RgbOf(color))
    else if color in PresetNames then Preset(color)
    else Preset("blue")
  }
}

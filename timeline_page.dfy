/**
 * The two pure helpers of the members' timeline page (src/app/page.tsx):
 * the display name derived from a user id by a 32-bit string hash, and the
 * category badge's label and colour with their fallbacks.
 */
module TimelinePage {

  import opened Wrappers
  import opened Database
  import C = Categories

  const Researcher: string := "Future Lab Researcher"
  const Anonymous: string := "匿名メンバー"
  const FallbackColor: string := "bg-slate-100 text-slate-700"

  const TwoTo31: int := 0x8000_0000
  const TwoTo32: int := 0x1_0000_0000

  /** ToInt32 of section 7.1.6 of ECMA-262, on an integer argument. */
  function ToInt32(x: int): (r: int)
    ensures -TwoTo31 <= r < TwoTo31
    ensures (x - r) % TwoTo32 == 0
  {
    var m := x % TwoTo32;
    if m >= TwoTo31 then m - TwoTo32 else m
  }

  /** The UTF-16 code units of `s`, as `charCodeAt` reads them. */
  function Utf16(s: string): (units: seq<int>)
    ensures |units| >= |s|
    ensures forall k :: 0 <= k < |units| ==> 0 <= units[k] < 0x1_0000
  {
    if s == [] then []
    else
      var c := s[0] as int;
      var head := if c < 0x1_0000 then [c]
                  else [0xD800 + (c - 0x1_0000) / 0x400, 0xDC00 + (c - 0x1_0000) % 0x400];
      head + Utf16(s[1..])
  }

  /** The code points `s` holds, one per character. */
  function CodePoints(s: string): (points: seq<int>)
    ensures |points| == |s|
    ensures forall k :: 0 <= k < |s| ==> points[k] == s[k] as int
  {
    seq(|s|, k requires 0 <= k < |s| => s[k] as int)
  }

  /**
   * Reads UTF-16 code units back into code points: a high surrogate
   * followed by a low one is one code point, any other unit stands for itself.
   */
  function FromUtf16(units: seq<int>): seq<int>
    decreases |units|
  {
    if units == [] then []
    else if |units| >= 2 && 0xD800 <= units[0] < 0xDC00 && 0xDC00 <= units[1] < 0xE000 then
      [0x1_0000 + (units[0] - 0xD800) * 0x400 + (units[1] - 0xDC00)] + FromUtf16(units[2..])
    else
      [units[0]] + FromUtf16(units[1..])
  }

  /** A code point above the Basic Multilingual Plane splits into a high and a low surrogate that recombine to it. */
  lemma SurrogatePair(c: int) returns (hi: int, lo: int)
    requires 0x1_0000 <= c <= 0x10_FFFF
    ensures hi == 0xD800 + (c - 0x1_0000) / 0x400 && lo == 0xDC00 + (c - 0x1_0000) % 0x400
    ensures 0xD800 <= hi < 0xDC00 && 0xDC00 <= lo < 0xE000
    ensures 0x1_0000 + (hi - 0xD800) * 0x400 + (lo - 0xDC00) == c
  {
    hi, lo := 0xD800 + (c - 0x1_0000) / 0x400, 0xDC00 + (c - 0x1_0000) % 0x400;
  }

  /** A surrogate pair at the front decodes to one code point. */
  lemma DecodePair(hi: int, lo: int, rest: seq<int>)
    requires 0xD800 <= hi < 0xDC00 && 0xDC00 <= lo < 0xE000
    ensures FromUtf16([hi, lo] + rest) == [0x1_0000 + (hi - 0xD800) * 0x400 + (lo - 0xDC00)] + FromUtf16(rest)
  {
    assert ([hi, lo] + rest)[2..] == rest;
  }

  /** Any unit that is not a high surrogate decodes to itself. */
  lemma DecodeSingle(unit: int, rest: seq<int>)
    requires !(0xD800 <= unit < 0xDC00)
    ensures FromUtf16([unit] + rest) == [unit] + FromUtf16(rest)
  {
    assert ([unit] + rest)[1..] == rest;
  }

  /**
   * `charCodeAt` sees every character of `s`, in order: characters of the
   * Basic Multilingual Plane as one unit each, the others as a surrogate
   * pair, and decoding the units gives back exactly the code points of `s`.
   */
  lemma {:induction false} Utf16RoundTrip(s: string)
    ensures FromUtf16(Utf16(s)) == CodePoints(s)
    decreases |s|
  {
    if s != [] {
      Utf16RoundTrip(s[1..]);
      var c := s[0] as int;
      var rest := Utf16(s[1..]);
      if c < 0x1_0000 {
        assert Utf16(s) == [c] + rest;
        DecodeSingle(c, rest);
      } else {
        var hi, lo := SurrogatePair(c);
        assert Utf16(s) == [hi, lo] + rest;
        DecodePair(hi, lo, rest);
      }
      CodePointsCons(s);
    }
  }

  /** The code points of a non-empty string: its first character's, then the rest's. */
  lemma CodePointsCons(s: string)
    requires s != []
    ensures CodePoints(s) == [s[0] as int] + CodePoints(s[1..])
  {
  }

  /** One turn of the loop: `(hash << 5) - hash + unit`, with the shift done on ToInt32(hash). */
  function Step(hash: int, unit: int): int {
    ToInt32(ToInt32(hash) * 32) - hash + unit
  }

  /** The value of `hash` after the loop has read `units`, from 0. */
  function HashOf(units: seq<int>): int {
    if units == [] then 0 else Step(HashOf(units[..|units| - 1]), units[|units| - 1])
  }

  function Sum(units: seq<int>): int {
    if units == [] then 0 else Sum(units[..|units| - 1]) + units[|units| - 1]
  }

  /** The label `Math.abs(hash) % 2 === 0 ? … : …` picks. */
  function LabelFor(hash: int): string {
    if (if hash < 0 then -hash else hash) % 2 == 0 then Researcher else Anonymous
  }

  /** ToInt32 removes a multiple of 2^32, so it keeps parity. */
  lemma ToInt32KeepsParity(x: int)
    ensures ToInt32(x) % 2 == x % 2
  {
    var q, m := x / 0x1_0000_0000, x % 0x1_0000_0000;
    assert x == 0x1_0000_0000 * q + m;
    var k := if m >= 0x8000_0000 then q + 1 else q;
    assert ToInt32(x) == x - 2 * (0x8000_0000 * k);
    EvenOffset(x, 0x8000_0000 * k);
  }

  lemma EvenOffset(x: int, k: int)
    ensures (x - 2 * k) % 2 == x % 2
  {
  }

  /** The shifted term of a step is even. */
  lemma ShiftIsEven(hash: int)
    ensures ToInt32(ToInt32(hash) * 32) % 2 == 0
  {
    var y := ToInt32(hash);
    ToInt32KeepsParity(y * 32);
    EvenMultiple(y * 16);
    assert y * 32 == 2 * (y * 16);
  }

  lemma EvenMultiple(k: int)
    ensures (2 * k) % 2 == 0
  {
  }

  /** An even shift term leaves the step with the parity of hash + unit. */
  lemma StepParity(shifted: int, hash: int, unit: int, sum: int)
    requires shifted % 2 == 0 && hash % 2 == sum % 2
    ensures (shifted - hash + unit) % 2 == (sum + unit) % 2
  {
  }

  /** `Math.abs` keeps parity. */
  lemma AbsKeepsParity(x: int)
    ensures (if x < 0 then -x else x) % 2 == x % 2
  {
  }

  /** The hash has the parity of the sum of the code units. */
  lemma {:induction false} HashParity(units: seq<int>)
    ensures HashOf(units) % 2 == Sum(units) % 2
    decreases |units|
  {
    if units != [] {
      var init, last := units[..|units| - 1], units[|units| - 1];
      var h := HashOf(init);
      HashParity(init);
      ShiftIsEven(h);
      StepParity(ToInt32(ToInt32(h) * 32), h, last, Sum(init));
    }
  }

  /**
   * Each code unit adds at most 2^31 + 0xFFFF to the hash's magnitude, so
   * after n units |hash| is at most n * (2^31 + 0xFFFF); for fewer than
   * 2^21 code units every value stays below 2^53, and JavaScript's doubles
   * compute the same integers as this model.
   */
  lemma {:induction false} HashBound(units: seq<int>)
    requires forall k :: 0 <= k < |units| ==> 0 <= units[k] < 0x1_0000
    ensures -|units| * (TwoTo31 + 0xFFFF) <= HashOf(units) <= |units| * (TwoTo31 + 0xFFFF)
    decreases |units|
  {
    if units != [] {
      HashBound(units[..|units| - 1]);
    }
  }

  lemma HashIsExact(units: seq<int>)
    requires forall k :: 0 <= k < |units| ==> 0 <= units[k] < 0x1_0000
    requires |units| <= 0x20_0000
    ensures -0x20_0000_0000_0000 < HashOf(units) < 0x20_0000_0000_0000
  {
    HashBound(units);
  }

  /**
   * `getDisplayName`: "匿名メンバー" without a user id; otherwise the label of
   * the hash, which is the parity of the sum of the id's code units.
   */
  method GetDisplayName(userId: Option<string>) returns (name: string)
    ensures userId.None? || userId.value == "" ==> name == Anonymous
    ensures userId.Some? && userId.value != "" ==>
              name == LabelFor(HashOf(Utf16(userId.value)))
              && name == (if Sum(Utf16(userId.value)) % 2 == 0 then Researcher else Anonymous)
    ensures name == Researcher || name == Anonymous
  {
    if userId.None? || userId.value == "" {
      return Anonymous;
    }
    var units := Utf16(userId.value);
    var hash := 0;
    var i := 0;
    while i < |units|
      invariant 0 <= i <= |units|
      invariant hash == HashOf(units[..i])
    {
      assert units[..i + 1][..i] == units[..i];
      hash := (ToInt32(ToInt32(hash) * 32)) - hash + units[i];
      i := i + 1;
    }
    assert units[..i] == units;
    HashParity(units);
    AbsKeepsParity(hash);
    name := if (if hash < 0 then -hash else hash) % 2 == 0 then Researcher else Anonymous;
  }

  /** `CATEGORIES.find((c) => c.id === category)`: the first entry with that id. */
  function Find(entries: seq<CategoryEntry>, category: string): (r: Option<CategoryEntry>)
    ensures r.Some? ==> r.value in entries && Id(r.value.id) == category
    ensures r.None? ==> forall k :: 0 <= k < |entries| ==> Id(entries[k].id) != category
    ensures r.Some? ==> exists k :: 0 <= k < |entries| && entries[k] == r.value
                                    && forall j :: 0 <= j < k ==> Id(entries[j].id) != category
  {
    if entries == [] then None
    else if Id(entries[0].id) == category then Some(entries[0])
    else
      var r := Find(entries[1..], category);
      assert r.Some? ==> exists k :: 0 <= k < |entries| && entries[k] == r.value
                                     && forall j :: 0 <= j < k ==> Id(entries[j].id) != category by {
        if r.Some? {
          var k :| 0 <= k < |entries[1..]| && entries[1..][k] == r.value
                   && forall j :: 0 <= j < k ==> Id(entries[1..][j].id) != category;
          assert entries[k + 1] == r.value;
          assert forall j :: 0 <= j < k + 1 ==> Id(entries[j].id) != category;
        }
      }
      r
  }

  /** The badge text: the entry's label, or the raw category when no entry matches. */
  function CategoryLabel(category: string): (shown: string)
    ensures forall k :: 0 <= k < |Categories| && Id(Categories[k].id) == category ==>
              shown == Categories[k].caption
    ensures (forall k :: 0 <= k < |Categories| ==> Id(Categories[k].id) != category) ==>
              shown == category
  {
    match Find(Categories, category)
    case Some(entry) => entry.caption
    case None => category
  }

  /** The badge colour: the four-set colour, or the slate fallback for any other string. */
  function CategoryBadgeColor(category: string): (color: string)
    ensures forall c: CategoryId :: Id(c) == category ==> color == CategoryColors[c]
    ensures (forall c: CategoryId :: Id(c) != category) ==> color == FallbackColor
  {
    if category == "facility" then assert Id(Facility) == category; CategoryColors[Facility]
    else if category == "workflow" then assert Id(Workflow) == category; CategoryColors[Workflow]
    else if category == "efficiency" then assert Id(Efficiency) == category; CategoryColors[Efficiency]
    else if category == "other" then assert Id(Other) == category; CategoryColors[Other]
    else FallbackColor
  }

  /**
   * The badge of each of the six categories a row can carry: the four the
   * timeline knows show the same label and colour as the six-category
   * tables, while "welfare" and "event" show their raw id, not their label,
   * in the fallback colour.
   */
  lemma BadgeLookup(c: C.CategoryId)
    ensures c != C.Welfare && c != C.Event ==>
              CategoryLabel(C.Id(c)) == C.Label(c) && CategoryBadgeColor(C.Id(c)) == C.Color(c)
    ensures c == C.Welfare || c == C.Event ==>
              CategoryLabel(C.Id(c)) == C.Id(c) != C.Label(c) && CategoryBadgeColor(C.Id(c)) == FallbackColor
  {
    match c
    case Facility => SharedBadge(Facility); assert Widen(Facility) == c;
    case Workflow => SharedBadge(Workflow); assert Widen(Workflow) == c;
    case Efficiency => SharedBadge(Efficiency); assert Widen(Efficiency) == c;
    case Other => SharedBadge(Other); assert Widen(Other) == c;
    case Welfare => RawBadge(C.Id(c)); LabelIsNotId(c);
    case Event => RawBadge(C.Id(c)); LabelIsNotId(c);
  }

  /** The six-set labels of "welfare" and "event" differ from the ids themselves. */
  lemma LabelIsNotId(c: C.CategoryId)
    requires c == C.Welfare || c == C.Event
    ensures C.Label(c) != C.Id(c)
  {
    if c == C.Welfare {
      assert C.Label(c) == C.CategoryLabels["welfare"] == "福利厚生";
    } else {
      assert C.Label(c) == C.CategoryLabels["event"] == "イベント・交流";
    }
  }

  /** A timeline id shows the label and colour of the six-set category it widens to. */
  lemma SharedBadge(d: CategoryId)
    ensures CategoryLabel(C.Id(Widen(d))) == C.Label(Widen(d))
    ensures CategoryBadgeColor(C.Id(Widen(d))) == C.Color(Widen(d))
  {
    var w := Widen(d);
    var i :| 0 <= i < |Categories| && Categories[i].id == d && Categories[i].caption == C.Label(w);
  }

  /** "welfare" and "event" match no timeline entry. */
  lemma RawBadge(category: string)
    requires category == "welfare" || category == "event"
    ensures CategoryLabel(category) == category && CategoryBadgeColor(category) == FallbackColor
  {
    CategoriesEnumerateTheType();
    forall d: CategoryId ensures Id(d) != category {
      match d
      case Facility =>
      case Workflow =>
      case Efficiency =>
      case Other =>
    }
  }
}

/**
 * One fermentation step of a recipe: its kind (primary, secondary, clearing,
 * ageing), its duration in days, and its temperature with the unit it is
 * written in, plus the XML item a recipe file stores it as.
 *
 * Temperatures are Java doubles; their conversion between Celsius and
 * Fahrenheit and their decimal text are not modelled, and are passed in as
 * functions that the contracts hold for whatever they are.
 */
module FermentSteps {
  import opened Wrappers
  import opened JavaText

  /** Java's int. */
  newtype int32 = x: int | -0x8000_0000 <= x < 0x8000_0000

  const Primary: string := "Primary"
  const Secondary: string := "Secondary"
  const Clearing: string := "Clearing"
  const Ageing: string := "Ageing"

  /** The step kinds, in the order their indexes refer to. */
  const Types: seq<string> := [Primary, Secondary, Clearing, Ageing]

  /** Whether the kind at index i of Types names s, ignoring case. */
  predicate NamesType(i: nat, s: Option<string>)
    requires i < |Types|
  {
    MatchesIgnoreCase(Types[i], s)
  }

  /** The search of getTypeIndex from index i on: the first kind that names s, or 0. */
  function TypeIndexFrom(s: Option<string>, i: nat): (r: nat)
    requires i <= |Types|
    ensures r < |Types|
    ensures (exists j :: i <= j < |Types| && NamesType(j, s)) ==>
      i <= r && NamesType(r, s) && forall j :: i <= j < r ==> !NamesType(j, s)
    ensures (forall j :: i <= j < |Types| ==> !NamesType(j, s)) ==> r == 0
    decreases |Types| - i
  {
    if i == |Types| then 0
    else if NamesType(i, s) then i
    else TypeIndexFrom(s, i + 1)
  }

  /** getTypeIndex: the index of the first kind equal to s ignoring case, and 0 (Primary) for anything else. */
  function TypeIndex(s: Option<string>): (r: nat)
    ensures r < |Types|
    ensures (exists j :: 0 <= j < |Types| && NamesType(j, s)) ==>
      NamesType(r, s) && forall j :: 0 <= j < r ==> !NamesType(j, s)
    ensures (forall j :: 0 <= j < |Types| ==> !NamesType(j, s)) ==> r == 0
  {
    TypeIndexFrom(s, 0)
  }

  /** Each kind's name gives back its own index, whatever its case: the four names differ in length. */
  lemma TypeIndexOfName(k: nat, s: string)
    requires k < |Types| && EqualsIgnoreCase(Types[k], s)
    ensures TypeIndex(Some(s)) == k
  {
    assert |Types[0]| == 7 && |Types[1]| == 9 && |Types[2]| == 8 && |Types[3]| == 6;
    assert NamesType(k, Some(s));
    forall j | 0 <= j < |Types| && j != k
      ensures !NamesType(j, Some(s))
    {
      assert |Types[j]| != |Types[k]|;
    }
  }

  /** A string that names no kind, null included, gets the index of Primary. */
  lemma UnknownTypeIsPrimary(s: Option<string>)
    requires forall j :: 0 <= j < |Types| ==> !NamesType(j, s)
    ensures TypeIndex(s) == TypeIndex(Some(Primary)) == 0
  {
    assert NamesType(0, Some(Primary));
  }

  /** The fields of a step, as a value. */
  datatype StepValue = StepValue(stepType: Option<string>, tempU: Option<string>, time: int32, temp: real)

  /** convertTo on the fields: nothing when the unit already matches ignoring case; otherwise convert and take the new unit. */
  function Converted(v: StepValue, newU: string, cToF: real -> real, fToC: real -> real): StepValue
    requires v.tempU.Some?
  {
    if EqualsIgnoreCase(v.tempU.value, newU) then v
    else v.(temp := if newU == "F" then cToF(v.temp) else fToC(v.temp), tempU := Some(newU))
  }

  /** After convertTo the unit equals the requested one ignoring case, and the kind and duration are untouched. */
  lemma ConvertedUnit(v: StepValue, newU: string, cToF: real -> real, fToC: real -> real)
    requires v.tempU.Some?
    ensures var w := Converted(v, newU, cToF, fToC);
      w.tempU.Some? && EqualsIgnoreCase(w.tempU.value, newU) &&
      w.stepType == v.stepType && w.time == v.time
  {
  }

  /** Converting twice to the same unit is converting once. */
  lemma ConvertedIdempotent(v: StepValue, newU: string, cToF: real -> real, fToC: real -> real)
    requires v.tempU.Some?
    ensures Converted(v, newU, cToF, fToC).tempU.Some?
    ensures Converted(Converted(v, newU, cToF, fToC), newU, cToF, fToC) == Converted(v, newU, cToF, fToC)
  {
  }

  /** Only an upper-case "F" converts to Fahrenheit: from Celsius, "f" applies fToC. */
  lemma LowerCaseFConvertsToCelsius(v: StepValue, cToF: real -> real, fToC: real -> real)
    requires v.tempU == Some("C")
    ensures Converted(v, "f", cToF, fToC) == v.(temp := fToC(v.temp), tempU := Some("f"))
    ensures Converted(v, "F", cToF, fToC) == v.(temp := cToF(v.temp), tempU := Some("F"))
  {
    assert Lower('C') == 'c' != Lower('f');
  }

  /** Java int arithmetic: x reduced modulo 2^32 into the int range. */
  function Wrap32(x: int): (r: int32)
    ensures (x - r as int) % 0x1_0000_0000 == 0
    ensures -0x8000_0000 <= x < 0x8000_0000 ==> r as int == x
  {
    var m := (x + 0x8000_0000) % 0x1_0000_0000;
    assert x - (m - 0x8000_0000) == 0x1_0000_0000 * ((x + 0x8000_0000) / 0x1_0000_0000);
    (m - 0x8000_0000) as int32
  }

  /** Largest number of days whose minutes fit in an int. */
  const MaxExactDays: int := 0x7FFF_FFFF / 1440

  lemma MultipleOfModulus(a: int, b: int, c: int)
    requires a % 0x1_0000_0000 == 0 && b % 0x1_0000_0000 == 0
    ensures (a + c * b) % 0x1_0000_0000 == 0
  {
    var qa, qb := a / 0x1_0000_0000, b / 0x1_0000_0000;
    assert a == 0x1_0000_0000 * qa && b == 0x1_0000_0000 * qb;
    assert c * b == 0x1_0000_0000 * (c * qb);
    assert a + c * b == 0x1_0000_0000 * (qa + c * qb);
  }

  /** time*24*60 in int: congruent to the true product, and equal to it when that fits. */
  function MinutesOf(time: int32): (m: int32)
    ensures (m as int - time as int * 1440) % 0x1_0000_0000 == 0
    ensures -MaxExactDays <= time as int <= MaxExactDays ==> m as int == time as int * 1440
  {
    var hours := Wrap32(time as int * 24);
    var m := Wrap32(hours as int * 60);
    MultipleOfModulus(hours as int * 60 - m as int, time as int * 24 - hours as int, 60);
    assert (m as int - time as int * 1440) == -((hours as int * 60 - m as int) + 60 * (time as int * 24 - hours as int));
    m
  }

  const ItemOpen: string := "      <ITEM>\n"
  const ItemClose: string := "      </ITEM>\n"

  function OpenTag(tag: string): string { "          <" + tag + ">" }
  function CloseTag(tag: string): string { "</" + tag + ">\n" }

  /** One line of the item: an element holding text, written as is. */
  function Element(tag: string, text: string): string {
    OpenTag(tag) + text + CloseTag(tag)
  }

  /** The text toXML produces for a step; temperatures are printed by showDouble. */
  function ItemXml(v: StepValue, showDouble: real -> string): string {
    ItemOpen + Element("TYPE", Show(v.stepType)) + Element("TIME", IntText(v.time as int)) +
      Element("TEMP", showDouble(v.temp)) + Element("TEMPU", Show(v.tempU)) + ItemClose
  }

  /** The texts of an item's four elements, with the duration read back as a number. */
  datatype ItemText = ItemText(stepType: string, time: int, temp: string, tempU: string)

  /** Splits s at its first '<'. */
  function TextBeforeTag(s: string): (r: (string, string))
    ensures r.0 + r.1 == s && '<' !in r.0
  {
    if s == [] || s[0] == '<' then ([], s)
    else
      var (text, rest) := TextBeforeTag(s[1..]);
      ([s[0]] + text, rest)
  }

  lemma {:induction false} TextBeforeTagOf(text: string, rest: string)
    requires '<' !in text && |rest| > 0 && rest[0] == '<'
    ensures TextBeforeTag(text + rest) == (text, rest)
  {
    if text != [] {
      assert (text + rest)[0] == text[0] != '<';
      assert (text + rest)[1..] == text[1..] + rest;
      TextBeforeTagOf(text[1..], rest);
      assert [text[0]] + text[1..] == text;
    } else {
      assert text + rest == rest;
    }
  }

  function DropPrefix(p: string, s: string): Option<string> {
    if p <= s then Some(s[|p|..]) else None
  }

  lemma DropPrefixOf(p: string, s: string)
    ensures DropPrefix(p, p + s) == Some(s)
  {
    assert p <= p + s;
  }

  /** Reads one element line off the front of s: its text and what follows. */
  function ReadElement(tag: string, s: string): Option<(string, string)> {
    match DropPrefix(OpenTag(tag), s)
    case None => None
    case Some(rest) =>
      var (text, after) := TextBeforeTag(rest);
      match DropPrefix(CloseTag(tag), after)
      case None => None
      case Some(more) => Some((text, more))
  }

  lemma ReadElementOf(tag: string, text: string, rest: string)
    requires '<' !in text
    ensures ReadElement(tag, Element(tag, text) + rest) == Some((text, rest))
  {
    assert Element(tag, text) + rest == OpenTag(tag) + (text + (CloseTag(tag) + rest));
    DropPrefixOf(OpenTag(tag), text + (CloseTag(tag) + rest));
    TextBeforeTagOf(text, CloseTag(tag) + rest);
    DropPrefixOf(CloseTag(tag), rest);
  }

  /** Reads an item in the layout toXML writes; None for any other text. */
  function ReadItem(x: string): Option<ItemText> {
    match DropPrefix(ItemOpen, x)
    case None => None
    case Some(r0) =>
      match ReadElement("TYPE", r0)
      case None => None
      case Some((stepType, r1)) =>
        match ReadElement("TIME", r1)
        case None => None
        case Some((timeText, r2)) =>
          match ParseInt(timeText)
          case None => None
          case Some(time) =>
            match ReadElement("TEMP", r2)
            case None => None
            case Some((temp, r3)) =>
              match ReadElement("TEMPU", r3)
              case None => None
              case Some((tempU, r4)) =>
                if r4 == ItemClose then Some(ItemText(stepType, time, temp, tempU)) else None
  }

  /**
   * The item toXML writes reads back to the step's kind, duration, printed
   * temperature and unit, in that order, provided none of the three texts
   * holds a '<' (they are written unescaped).
   */
  lemma ItemXmlReadsBack(v: StepValue, showDouble: real -> string)
    requires '<' !in Show(v.stepType) && '<' !in showDouble(v.temp) && '<' !in Show(v.tempU)
    ensures ReadItem(ItemXml(v, showDouble)) ==
      Some(ItemText(Show(v.stepType), v.time as int, showDouble(v.temp), Show(v.tempU)))
  {
    var e4 := Element("TEMPU", Show(v.tempU)) + ItemClose;
    var e3 := Element("TEMP", showDouble(v.temp)) + e4;
    var e2 := Element("TIME", IntText(v.time as int)) + e3;
    var e1 := Element("TYPE", Show(v.stepType)) + e2;
    assert ItemXml(v, showDouble) == ItemOpen + e1;
    DropPrefixOf(ItemOpen, e1);
    ReadElementOf("TYPE", Show(v.stepType), e2);
    ReadElementOf("TIME", IntText(v.time as int), e3);
    IntTextRoundTrip(v.time as int);
    ReadElementOf("TEMP", showDouble(v.temp), e4);
    ReadElementOf("TEMPU", Show(v.tempU), ItemClose);
  }

  class FermentStep {
    var stepType: Option<string>
    var tempU: Option<string>
    var time: int32
    var temp: real

    /** A new step: no kind, no unit, zero days at zero degrees. */
    constructor ()
      ensures stepType == None && tempU == None && time == 0 && temp == 0.0
    {
      stepType, tempU, time, temp := None, None, 0, 0.0;
    }

    function Value(): StepValue
      reads this
    {
      StepValue(stepType, tempU, time, temp)
    }

    function GetTemp(): real reads this`temp { temp }
    function GetTempU(): Option<string> reads this`tempU { tempU }
    function GetTime(): int32 reads this`time { time }
    function GetType(): Option<string> reads this`stepType { stepType }

    method SetTemp(newTemp: real)
      modifies this`temp
      ensures temp == newTemp
    {
      temp := newTemp;
    }

    method SetTempU(newTempU: Option<string>)
      modifies this`tempU
      ensures tempU == newTempU
    {
      tempU := newTempU;
    }

    method SetTime(newTime: int32)
      modifies this`time
      ensures time == newTime
    {
      time := newTime;
    }

    method SetType(newType: Option<string>)
      modifies this`stepType
      ensures stepType == newType
    {
      stepType := newType;
    }

    /** toXML, building the item line by line; showDouble stands for Double.toString. */
    method ToXml(showDouble: real -> string) returns (out: string)
      ensures out == ItemXml(Value(), showDouble)
      ensures '<' !in Show(stepType) && '<' !in showDouble(temp) && '<' !in Show(tempU) ==>
        ReadItem(out) == Some(ItemText(Show(stepType), time as int, showDouble(temp), Show(tempU)))
    {
      out := "      <ITEM>\n";
      ghost var before := out;
      out := out + "          <TYPE>" + Show(stepType) + "</TYPE>\n";
      assert out == before + Element("TYPE", Show(stepType));
      before := out;
      out := out + "          <TIME>" + IntText(time as int) + "</TIME>\n";
      assert out == before + Element("TIME", IntText(time as int));
      before := out;
      out := out + "          <TEMP>" + showDouble(temp) + "</TEMP>\n";
      assert out == before + Element("TEMP", showDouble(temp));
      before := out;
      out := out + "          <TEMPU>" + Show(tempU) + "</TEMPU>\n";
      assert out == before + Element("TEMPU", Show(tempU));
      out := out + "      </ITEM>\n";
      if '<' !in Show(stepType) && '<' !in showDouble(temp) && '<' !in Show(tempU) {
        ItemXmlReadsBack(Value(), showDouble);
      }
    }

    /** compareTo: every pair of steps compares equal (the ordering by kind, then duration, is disabled). */
    function CompareTo(other: FermentStep): (c: int)
      ensures c == 0
    {
      0
    }

    /** convertTo; the unit must be set, since it is the receiver of the comparison. */
    method ConvertTo(newU: string, cToF: real -> real, fToC: real -> real)
      requires tempU.Some?
      modifies this`temp, this`tempU
      ensures Value() == Converted(old(Value()), newU, cToF, fToC)
    {
      if EqualsIgnoreCase(tempU.value, newU) {
        return;
      }
      if newU == "F" {
        temp := cToF(temp);
      } else {
        temp := fToC(temp);
      }
      tempU := Some(newU);
    }

    /** getTimeMins: the duration in minutes, multiplied in int before it is widened. */
    function TimeMins(): (m: int)
      reads this`time
      ensures -0x8000_0000 <= m < 0x8000_0000
      ensures (m - time as int * 1440) % 0x1_0000_0000 == 0
      ensures -MaxExactDays <= time as int <= MaxExactDays ==> m == time as int * 1440
    {
      MinutesOf(time) as int
    }
  }
}

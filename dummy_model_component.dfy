/**
 * The reference model component: three scalars and one time series, set and
 * read through Hector's string-keyed message protocol. Every thrown
 * h_exception comes back as a Failure/Err value built by the HExceptions
 * helpers at the raise site's line in the component's source file.
 */
module DummyModel {
  import opened Wrappers
  import opened HExceptions
  import opened LexicalCast
  import opened Decimal

  /** `Core::undefinedIndex()`: the date that means "no date". */
  const UndefinedIndex: real := -1.0
  /** The message asking a component for data. */
  const MGetData := "getData"
  /** The message asking a component to take data. */
  const MSetData := "setData"
  /** `DUMMY_COMPONENT_NAME`. */
  const DummyComponentName := "dummy-component"
  /** What a failed `lexical_cast`'s `bad_lexical_cast::what()` reports. */
  const BadLexicalCastWhat := "bad lexical cast: source type value could not be interpreted as target"
  /** The value the constructor gives each scalar: "not set yet". */
  const NotSet: real := -1.0

  /** The units a value can carry; only the two this component uses are named. */
  datatype Unit = UUndefined | UUnitless

  /** `unitval`: a value tagged with its unit. */
  datatype UnitVal = UnitVal(value: real, units: Unit)

  /** A default-constructed `unitval`. */
  const DefaultUnitVal := UnitVal(0.0, UUndefined)

  /** `message_data`: the date a call is about and the value in text. */
  datatype MessageData = MessageData(date: real, valueStr: string)

  /** `tseries<double>`: recorded (date, value) points and the interpolation switch. */
  datatype TSeries = TSeries(points: map<real, real>, interpolatable: bool) {

    /** `set(date, v)`: records `v` at `date`, replacing what was there. */
    function Set(date: real, v: real): (r: TSeries)
      ensures date in r.points && r.points[date] == v
      ensures r.points.Keys == points.Keys + {date}
      ensures forall d :: d in points && d != date ==> r.points[d] == points[d]
      ensures r.interpolatable == interpolatable
    {
      TSeries(points[date := v], interpolatable)
    }

    /** `size()`: the number of recorded points; zero exactly for an empty series. */
    function Size(): (r: nat)
      ensures r == 0 <==> points == map[]
    {
      |points|
    }
  }

  /** A set adds a point exactly when its date was not yet recorded; a series never shrinks. */
  lemma SetSize(ts: TSeries, date: real, v: real)
    ensures ts.Set(date, v).Size() == if date in ts.points then ts.Size() else ts.Size() + 1
  {
    var keys := ts.Set(date, v).points.Keys;
    if date in ts.points {
      assert keys == ts.points.Keys;
    } else {
      assert keys == ts.points.Keys + {date};
      assert |keys| == |ts.points.Keys| + 1;
    }
  }

  /** The text setData raises when the value string does not convert. */
  function ConvertMessage(varName: string, valueStr: string): string {
    "Could not convert var: " + varName + ", value: " + valueStr + ", exception: " + BadLexicalCastWhat
  }

  /** True when setData(varName, data) is one it carries out. */
  predicate SetAccepted(varName: string, data: MessageData) {
    && (varName == "slope" || varName == "y" || varName == "c")
    && (varName == "c" || data.date == UndefinedIndex)
    && ParseReal(data.valueStr).Some?
  }

  class DummyModelComponent {
    /** What `__FILE__` expands to where the component's source file is compiled. */
    const sourceFile: string
    var slope: real
    var prevX: real
    var y: real
    var c: TSeries

    /** The series `c` always interpolates: the constructor switches it on and nothing switches it off. */
    ghost predicate Valid()
      reads this
    {
      c.interpolatable
    }

    constructor (sourceFile: string)
      ensures Valid()
      ensures this.sourceFile == sourceFile
      ensures slope == NotSet && prevX == NotSet && y == NotSet
      ensures c.points == map[]
    {
      this.sourceFile := sourceFile;
      slope, prevX, y := NotSet, NotSet, NotSet;
      c := TSeries(map[], true);
    }

    /** `getComponentName()`: the same name whatever the state. */
    function GetComponentName(): string {
      DummyComponentName
    }

    /** The text setData raises for a variable it does not know; it names the component. */
    function UnknownVariableMessage(varName: string): string {
      "Unknown variable name while parsing " + GetComponentName() + ": " + varName
    }

    /** `getY()`: the current y, the value getData reports for "x". */
    function GetY(): (r: real)
      reads this
      ensures GetData("x", UndefinedIndex) == Ok(UnitVal(r, UUnitless))
    {
      y
    }

    /** `getData(varName, date)`: only "x" is known, it takes no date, and it reports y unitless. */
    function GetData(varName: string, date: real): (r: Result<UnitVal>)
      reads this
      ensures r.Ok? <==> varName == "x" && date == UndefinedIndex
      ensures r.Ok? ==> r.value == UnitVal(y, UUnitless)
      ensures varName == "x" && date != UndefinedIndex ==>
        r == Err(Throw(AssertionPrefix + "Date not allowed for x", At("getData", 169)))
      ensures varName != "x" ==>
        r == Err(Throw("Caller is requesting unknown variable: " + varName, At("getData", 172)))
    {
      if varName == "x" then
        match Assert(date == UndefinedIndex, "Date not allowed for x", At("getData", 169))
        case Failure(e) => Err(e)
        case Success => Ok(UnitVal(y, UUnitless))
      else
        Err(Throw("Caller is requesting unknown variable: " + varName, At("getData", 172)))
    }

    /**
     * `sendMessage(message, datum, info)`: a data request is answered as
     * getData would answer it; a set request is accepted and does nothing;
     * any other message is refused.
     */
    function SendMessage(message: string, datum: string, info: MessageData): (r: Result<UnitVal>)
      reads this
      ensures message == MGetData ==> r == GetData(datum, info.date)
      ensures message == MSetData ==> r == Ok(DefaultUnitVal)
      ensures message != MGetData && message != MSetData ==>
        r == Err(Throw("Caller sent unknown message: " + message, At("sendMessage", 102)))
    {
      if message == MGetData then GetData(datum, info.date)
      else if message == MSetData then Ok(DefaultUnitVal)
      else Err(Throw("Caller sent unknown message: " + message, At("sendMessage", 102)))
    }

    /** The site of a raise in the component's source file. */
    function At(func: string, line: int): Site {
      Site(func, sourceFile, line)
    }

    /**
     * The checks `setData(varName, data)` makes before it stores anything, and
     * the value it then stores: "slope" and "y" refuse a date, "c" takes any
     * date, the date is checked before the value is converted, and any other
     * name is unknown.
     */
    function SetDataValue(varName: string, data: MessageData): (r: Result<real>)
      ensures r.Ok? <==> SetAccepted(varName, data)
      ensures r.Ok? ==> Some(r.value) == ParseReal(data.valueStr)
      ensures varName != "slope" && varName != "y" && varName != "c" ==>
        r == Err(Throw(UnknownVariableMessage(varName), At("setData", 125)))
      ensures (varName == "slope" || varName == "y") && data.date != UndefinedIndex ==>
        r == Err(Throw(AssertionPrefix + "date not allowed", At("setData", if varName == "slope" then 117 else 120)))
      ensures (varName == "c" || ((varName == "slope" || varName == "y") && data.date == UndefinedIndex))
              && ParseReal(data.valueStr).None? ==>
        r == Err(Throw(ConvertMessage(varName, data.valueStr), At("setData", 129)))
    {
      if varName != "slope" && varName != "y" && varName != "c" then
        Err(Throw(UnknownVariableMessage(varName), At("setData", 125)))
      else
        var dateCheck :=
          if varName == "c" then Success
          else Assert(data.date == UndefinedIndex, "date not allowed", At("setData", if varName == "slope" then 117 else 120));
        if dateCheck.Failure? then Err(dateCheck.error)
        else match ParseReal(data.valueStr)
          case None => Err(Throw(ConvertMessage(varName, data.valueStr), At("setData", 129)))
          case Some(v) => Ok(v)
    }

    /**
     * `setData(varName, data)`: stores the converted value in the one field
     * the name selects, or raises what SetDataValue raises and changes nothing.
     */
    method SetData(varName: string, data: MessageData) returns (r: Status)
      requires Valid()
      modifies this
      ensures Valid()
      ensures r.Success? <==> SetDataValue(varName, data).Ok?
      ensures r.Failure? ==> r.error == SetDataValue(varName, data).error && unchanged(this)
      ensures r.Success? && varName == "slope" ==>
        slope == SetDataValue(varName, data).value && y == old(y) && c == old(c) && prevX == old(prevX)
      ensures r.Success? && varName == "y" ==>
        y == SetDataValue(varName, data).value && slope == old(slope) && c == old(c) && prevX == old(prevX)
      ensures r.Success? && varName == "c" ==>
        c == old(c).Set(data.date, SetDataValue(varName, data).value)
        && slope == old(slope) && y == old(y) && prevX == old(prevX)
    {
      var checked := SetDataValue(varName, data);
      if checked.Err? {
        return Failure(checked.error);
      }
      var v := checked.value;
      if varName == "slope" {
        slope := v;
      } else if varName == "y" {
        y := v;
      } else {
        c := c.Set(data.date, v);
      }
      r := Success;
    }

    /**
     * `prepareToRun()`: ready exactly when slope and y have been set and c
     * holds a point; otherwise the first unmet check raises.
     */
    function PrepareToRun(): (r: Status)
      reads this
      ensures r.Success? <==> slope != NotSet && y != NotSet && c.Size() > 0
      ensures r.Failure? ==>
        r.error == Throw(AssertionPrefix + "", At("prepareToRun", if slope == NotSet then 141 else if y == NotSet then 142 else 143))
    {
      if slope == NotSet then Assert(false, "", At("prepareToRun", 141))
      else if y == NotSet then Assert(false, "", At("prepareToRun", 142))
      else Assert(c.Size() > 0, "", At("prepareToRun", 143))
    }

    /** The check `run(runToDate)` makes before stepping: at least one 0.1 step must fit. */
    function RunTimeStepCheck(runToDate: real): (r: Status)
      reads this
      ensures r.Success? <==> runToDate - prevX > 0.1
      ensures r.Failure? ==> r.error == Throw(AssertionPrefix + "time step error", At("run", 153))
    {
      Assert(runToDate - prevX > 0.1, "time step error", At("run", 153))
    }
  }

  /** A value set as "y" is what a following request for "x" reports. */
  method SetYThenGetX(comp: DummyModelComponent, valueStr: string) returns (r: Result<UnitVal>)
    requires comp.Valid()
    requires ParseReal(valueStr).Some?
    modifies comp
    ensures r == Ok(UnitVal(ParseReal(valueStr).value, UUnitless))
  {
    var s := comp.SetData("y", MessageData(UndefinedIndex, valueStr));
    r := comp.GetData("x", UndefinedIndex);
  }

  /** A freshly constructed component is not ready: its slope is still unset. */
  method FreshComponentNotReady(sourceFile: string) returns (r: Status)
    ensures r == Failure(Throw(AssertionPrefix + "", Site("prepareToRun", sourceFile, 141)))
  {
    var comp := new DummyModelComponent(sourceFile);
    r := comp.PrepareToRun();
  }

  /** Setting slope, y and one point of c makes the component ready. */
  method ReadyOnceAllSet(sourceFile: string) returns (r: Status)
    ensures r == Success
  {
    ParseDigits("2");
    ParseDigits("0");
    assert DigitsValue("2") == 2 && DigitsValue("0") == 0;
    var comp := new DummyModelComponent(sourceFile);
    var s := comp.SetData("slope", MessageData(UndefinedIndex, "2"));
    assert comp.slope == 2.0;
    s := comp.SetData("y", MessageData(UndefinedIndex, "0"));
    assert comp.y == 0.0;
    s := comp.SetData("c", MessageData(0.0, "0"));
    SetSize(TSeries(map[], true), 0.0, 0.0);
    assert comp.c.Size() == 1;
    r := comp.PrepareToRun();
  }
}

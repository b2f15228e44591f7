/** The dashboard component: the sensor cards with their severity border,
    the card-click guard, and the detail modal's state (which sensor is
    selected, the thrust increments typed in, and whether the button reads
    "Confirm" or "Close").

    Each event handler is one atomic transition. React applies the setter
    calls of a handler after it returns, so any state the handler reads is
    the state before the event. */
module Dashboard {

  import opened Maybe
  import LeaveArea
  import ProgressBar

  /** One record of the sensor feed. */
  datatype Sensor = Sensor(
    name: string,
    temperature: real,
    position: seq<real>,
    waterSpeed: seq<real>,
    thrustersSpeed: seq<real>)

  datatype Border = Green | Yellow | Red

  /** What a card shows: its title, its temperature and its border colour. */
  datatype Card = Card(name: string, temperature: real, border: Border)

  /** The body of the thruster request: the increment to add on each axis. */
  datatype ThrusterUpdate = ThrusterUpdate(name: string, xAxisSpeed: real, yAxisSpeed: real, zAxisSpeed: real)

  /** The title a card shows once its sensor counts as gone. */
  const LostName: string := "sensor lost"

  /** `toFixed(2)` read back by `parseFloat`, for a non-negative number:
      the nearest multiple of 0.01, ties rounded up. */
  function RoundToHundredths(t: real): (r: real)
    requires t >= 0.0
    ensures r >= 0.0
    ensures r - 0.005 <= t < r + 0.005
    ensures (r * 100.0).Floor as real == r * 100.0
  {
    var n := (t * 100.0 + 0.5).Floor;
    assert n as real <= t * 100.0 + 0.5 < n as real + 1.0;
    assert n >= 0;
    (n as real) / 100.0
  }

  /** `parseFloat(countLeaveArea(...))`: the text "Invalid input data" and
      "Never" parse to NaN (`None`), "0.00" to zero, and a time to its
      two-decimal rounding. */
  function LeaveTime(e: LeaveArea.Estimate): (v: Option<real>)
    requires e.Time? ==> e.t > 0.0
    ensures v.None? <==> e.Invalid? || e.Never?
    ensures e.AlreadyOut? ==> v == Some(0.0)
    ensures e.Time? ==> v.Some? && v.value >= 0.0 && v.value - 0.005 <= e.t < v.value + 0.005
    ensures e.Time? ==> v == Some(RoundToHundredths(e.t))
  {
    match e
    case Invalid => None
    case Never => None
    case AlreadyOut => Some(0.0)
    case Time(t) => Some(RoundToHundredths(t))
  }

  /** The estimate reads back as zero exactly for the early "0.00" and for a
      time that `toFixed(2)` prints as "0.00". */
  lemma PrintedZero(e: LeaveArea.Estimate)
    requires e.Time? ==> e.t > 0.0
    ensures LeaveTime(e) == Some(0.0) <==> e.AlreadyOut? || (e.Time? && e.t < 0.005)
  {}

  /** The card for `sensor`, given its parsed leave time. Every comparison
      with NaN is false, so a NaN leave time falls through to green. */
  function CardFor(sensor: Sensor, leaveTime: Option<real>): (c: Card)
    ensures (leaveTime.Some? && leaveTime.value <= 0.0) ==> c == Card(LostName, 0.0, Red)
    ensures !(leaveTime.Some? && leaveTime.value <= 0.0) ==> c.name == sensor.name && c.temperature == sensor.temperature
    ensures c.border == Red <==> leaveTime.Some? && leaveTime.value < 10.0
    ensures c.border == Yellow <==> leaveTime.Some? && 10.0 <= leaveTime.value < 30.0
    ensures c.border == Green <==> leaveTime.None? || leaveTime.value >= 30.0
  {
    match leaveTime
    case None => Card(sensor.name, sensor.temperature, Green)
    case Some(t) =>
      if t <= 0.0 then Card(LostName, 0.0, Red)
      else if t < 10.0 then Card(sensor.name, sensor.temperature, Red)
      else if t < 30.0 then Card(sensor.name, sensor.temperature, Yellow)
      else Card(sensor.name, sensor.temperature, Green)
  }

  /** The card the dashboard draws for `sensor`: lost when the sensor is out
      or leaves within half a hundredth, red below 9.995, yellow below 29.995,
      and green otherwise, including "Never" and invalid input. */
  function SensorCard(sensor: Sensor): (c: Card)
    ensures var e := LeaveArea.CountLeaveArea(sensor.position, sensor.waterSpeed, sensor.thrustersSpeed);
      (e.AlreadyOut? || (e.Time? && e.t < 0.005)) ==> c == Card(LostName, 0.0, Red)
    ensures var e := LeaveArea.CountLeaveArea(sensor.position, sensor.waterSpeed, sensor.thrustersSpeed);
      !(e.AlreadyOut? || (e.Time? && e.t < 0.005)) ==> c.name == sensor.name && c.temperature == sensor.temperature
    ensures var e := LeaveArea.CountLeaveArea(sensor.position, sensor.waterSpeed, sensor.thrustersSpeed);
      c.border == Red <==> e.AlreadyOut? || (e.Time? && e.t < 9.995)
    ensures var e := LeaveArea.CountLeaveArea(sensor.position, sensor.waterSpeed, sensor.thrustersSpeed);
      c.border == Green <==> e.Invalid? || e.Never? || (e.Time? && e.t >= 29.995)
  {
    LeaveArea.TimeIsPositive(sensor.position, sensor.waterSpeed, sensor.thrustersSpeed);
    CardForEstimate(sensor, LeaveArea.CountLeaveArea(sensor.position, sensor.waterSpeed, sensor.thrustersSpeed));
    CardFor(sensor, LeaveTime(LeaveArea.CountLeaveArea(sensor.position, sensor.waterSpeed, sensor.thrustersSpeed)))
  }

  /** How each estimate is shown. "Never" and invalid input are green; a
      sensor already out is lost; a time is judged after rounding to
      hundredths, so one under 0.005 also shows as lost. */
  lemma CardForEstimate(sensor: Sensor, e: LeaveArea.Estimate)
    requires e.Time? ==> e.t > 0.0
    ensures e.Invalid? || e.Never? ==> CardFor(sensor, LeaveTime(e)).border == Green
    ensures e.AlreadyOut? ==> CardFor(sensor, LeaveTime(e)) == Card(LostName, 0.0, Red)
    ensures e.Time? && e.t < 0.005 ==> CardFor(sensor, LeaveTime(e)) == Card(LostName, 0.0, Red)
    ensures e.Time? && 0.005 <= e.t < 9.995 ==> CardFor(sensor, LeaveTime(e)) == Card(sensor.name, sensor.temperature, Red)
    ensures e.Time? && 9.995 <= e.t < 29.995 ==> CardFor(sensor, LeaveTime(e)).border == Yellow
    ensures e.Time? && e.t >= 29.995 ==> CardFor(sensor, LeaveTime(e)).border == Green
  {}

  /** A lost card shows temperature 0, so its bar is empty. */
  lemma LostCardHasEmptyBar(sensor: Sensor, leaveTime: Option<real>)
    requires leaveTime.Some? && leaveTime.value <= 0.0
    ensures ProgressBar.BarFill(CardFor(sensor, leaveTime).temperature, 100.0).width == 0.0
  {}

  /** `Array.prototype.find` by name: the first sensor called `name`. */
  function FindByName(sensors: seq<Sensor>, name: string): (s: Option<Sensor>)
    ensures s.None? <==> forall k :: 0 <= k < |sensors| ==> sensors[k].name != name
    ensures s.Some? ==> s.value.name == name
    ensures s.Some? ==> exists k :: (0 <= k < |sensors| && sensors[k] == s.value
                                     && forall j :: 0 <= j < k ==> sensors[j].name != name)
  {
    if sensors == [] then None
    else if sensors[0].name == name then Some(sensors[0])
    else
      var rest := FindByName(sensors[1..], name);
      assert forall k :: 1 <= k < |sensors| ==> sensors[k] == sensors[1..][k - 1];
      rest
  }

  /** The component state. */
  class App {
    var sensors: seq<Sensor>
    var selectedSensorName: Option<string>
    var axisX: real
    var axisY: real
    var axisZ: real
    var isConfirming: bool

    /** The initial state of every `useState`. */
    constructor ()
      ensures sensors == [] && selectedSensorName == None
      ensures axisX == 0.0 && axisY == 0.0 && axisZ == 0.0 && !isConfirming
    {
      sensors := [];
      selectedSensorName := None;
      axisX, axisY, axisZ := 0.0, 0.0, 0.0;
      isConfirming := false;
    }

    /** The selection, if any, names a sensor of the current list. */
    ghost predicate SelectionValid()
      reads this
    {
      selectedSensorName.Some? ==>
        exists k :: 0 <= k < |sensors| && sensors[k].name == selectedSensorName.value
    }

    /** `selectedSensor`: the record the modal shows, if the selected name is
        in the list; the modal is open exactly when this is `Some`. */
    function SelectedSensor(): (s: Option<Sensor>)
      reads this
      ensures s.Some? ==> selectedSensorName.Some? && s.value.name == selectedSensorName.value && s.value in sensors
      ensures SelectionValid() && selectedSensorName.Some? ==> s.Some?
    {
      match selectedSensorName
      case None => None
      case Some(name) => FindByName(sensors, name)
    }

    /** `checkInputs`: the button asks for confirmation unless all three
        increments are zero. */
    method CheckInputs()
      modifies this
      ensures isConfirming <==> !(axisX == 0.0 && axisY == 0.0 && axisZ == 0.0)
      ensures sensors == old(sensors) && selectedSensorName == old(selectedSensorName)
      ensures axisX == old(axisX) && axisY == old(axisY) && axisZ == old(axisZ)
      ensures old(SelectionValid()) ==> SelectionValid()
    {
      if axisX == 0.0 && axisY == 0.0 && axisZ == 0.0 {
        isConfirming := false;
      } else {
        isConfirming := true;
      }
    }

    /** `handleInputChange`: `value` is what `parseFloat` made of the typed
        text (`None` for NaN). A number updates the named field only; then
        `checkInputs` runs on the values from before the update, since the
        setter has not been applied yet when it reads them. */
    method HandleInputChange(name: string, value: Option<real>)
      modifies this
      ensures value.None? ==> unchanged(this)
      ensures value.Some? ==> axisX == (if name == "axisX" then value.value else old(axisX))
      ensures value.Some? ==> axisY == (if name == "axisY" then value.value else old(axisY))
      ensures value.Some? ==> axisZ == (if name == "axisZ" then value.value else old(axisZ))
      ensures value.Some? ==> (isConfirming <==> !(old(axisX) == 0.0 && old(axisY) == 0.0 && old(axisZ) == 0.0))
      ensures sensors == old(sensors) && selectedSensorName == old(selectedSensorName)
      ensures old(SelectionValid()) ==> SelectionValid()
    {
      if value.Some? {
        CheckInputs();
        if name == "axisX" {
          axisX := value.value;
        } else if name == "axisY" {
          axisY := value.value;
        } else if name == "axisZ" {
          axisZ := value.value;
        }
      }
    }

    /** `handleAction`, the modal's button: "Confirm" sends the increments
        for `name` and keeps the modal open; "Close" deselects the sensor
        (and leaves the typed increments as they are). */
    method HandleAction(name: string) returns (update: Option<ThrusterUpdate>)
      modifies this
      ensures old(isConfirming) ==> update == Some(ThrusterUpdate(name, axisX, axisY, axisZ))
      ensures old(isConfirming) ==> !isConfirming && selectedSensorName == old(selectedSensorName)
      ensures !old(isConfirming) ==> update == None && !isConfirming && selectedSensorName == None
      ensures sensors == old(sensors)
      ensures old(SelectionValid()) ==> SelectionValid()
      ensures axisX == old(axisX) && axisY == old(axisY) && axisZ == old(axisZ)
    {
      if isConfirming {
        update := Some(ThrusterUpdate(name, axisX, axisY, axisZ));
        isConfirming := false;
      } else {
        update := None;
        selectedSensorName := None;
      }
    }

    /** `openModal` */
    method OpenModal(sensorName: string)
      modifies this
      ensures selectedSensorName == Some(sensorName)
      ensures sensors == old(sensors) && isConfirming == old(isConfirming)
      ensures axisX == old(axisX) && axisY == old(axisY) && axisZ == old(axisZ)
    {
      selectedSensorName := Some(sensorName);
    }

    /** `closeModal`: clears the increments and the selection; the
        confirmation flag is left as it is. */
    method CloseModal()
      modifies this
      ensures axisX == 0.0 && axisY == 0.0 && axisZ == 0.0 && selectedSensorName == None
      ensures sensors == old(sensors) && isConfirming == old(isConfirming)
      ensures SelectionValid()
    {
      axisX, axisY, axisZ := 0.0, 0.0, 0.0;
      selectedSensorName := None;
    }

    /** A new list from the feed, followed by the effect that drops a
        selection whose sensor is no longer in the list. */
    method ReceiveSensors(list: seq<Sensor>)
      modifies this
      ensures sensors == list
      ensures SelectionValid()
      ensures selectedSensorName == (if old(selectedSensorName).Some? && FindByName(list, old(selectedSensorName).value).Some?
                                     then old(selectedSensorName) else None)
      ensures isConfirming == old(isConfirming)
      ensures axisX == old(axisX) && axisY == old(axisY) && axisZ == old(axisZ)
    {
      sensors := list;
      if selectedSensorName.Some? {
        var sensor := FindByName(sensors, selectedSensorName.value);
        if sensor.None? {
          selectedSensorName := None;
        }
      }
    }

    /** A click on the card of `sensors[i]`: it opens the modal unless the
        card's title is "sensor lost". The estimate is computed by the
        component's own copy of `countLeaveArea`. */
    method ClickCard(i: nat)
      requires i < |sensors|
      modifies this
      ensures var card := SensorCard(old(sensors)[i]);
        selectedSensorName == (if card.name != LostName then Some(old(sensors)[i].name) else old(selectedSensorName))
      ensures old(SelectionValid()) ==> SelectionValid()
      ensures sensors == old(sensors) && isConfirming == old(isConfirming)
      ensures axisX == old(axisX) && axisY == old(axisY) && axisZ == old(axisZ)
    {
      var sensor := sensors[i];
      var estimate := LeaveArea.CountLeaveAreaLoop(sensor.position, sensor.waterSpeed, sensor.thrustersSpeed);
      LeaveArea.TimeIsPositive(sensor.position, sensor.waterSpeed, sensor.thrustersSpeed);
      var card := CardFor(sensor, LeaveTime(estimate));
      if card.name != LostName {
        OpenModal(sensor.name);
      }
    }
  }

  /** What the stale read in `handleInputChange` does to an operator: the
      first number typed into a fresh modal leaves the button on "Close",
      and typing the axis back to 0 leaves it on "Confirm", which then sends
      an all-zero increment. */
  method StaleCheckTrace() returns (confirmAfterFirstEdit: bool, sent: Option<ThrusterUpdate>)
    ensures !confirmAfterFirstEdit
    ensures sent == Some(ThrusterUpdate("buoy", 0.0, 0.0, 0.0))
  {
    var app := new App();
    var buoy := Sensor("buoy", 20.0, [0.0, 0.0, 0.0], [0.0, 0.0, 0.0], [0.0, 0.0, 0.0]);
    app.ReceiveSensors([buoy]);
    app.OpenModal("buoy");
    app.HandleInputChange("axisX", Some(5.0));
    confirmAfterFirstEdit := app.isConfirming;
    app.HandleInputChange("axisX", Some(0.0));
    sent := app.HandleAction("buoy");
  }
}

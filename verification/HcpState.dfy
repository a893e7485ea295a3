/**
 * The door as the component understands it. Positions are kept as the drive
 * counts them, 0 to 200; a go-to target is kept in percent, 0 for none.
 */
module HcpState {
  import opened HcpTypes

  const SERIAL_FIRST_LEN := 14
  const SERIAL_SECOND_LEN := 12
  const IDENT_SERIAL_LEN := 26
  const IDENT_FIRMWARE_LEN := 12

  datatype Door = Door(
    target: Byte,
    current: Byte,
    goto: nat,
    lightOn: bool,
    relayOn: bool,
    actuatorError: bool,
    state: DoorState,
    link: Link,
    valid: bool,
    serial: seq<Byte>,
    firmware: seq<Byte>,
    changed: bool)
  {
    function SetGoto(percent: nat): Door {
      this.(goto := percent, changed := true)
    }

    /** Coming to rest, for whatever reason, clears the target. */
    function SetState(s: DoorState): Door {
      this.(state := s, changed := true,
            goto := if IsMoving(state) && !IsMoving(s) then 0 else goto)
    }

    function SetValid(v: bool): Door {
      if valid == v then this else this.(valid := v, changed := true)
    }

    function SetLink(l: Link): Door {
      if link == l then this else this.(link := l, changed := true)
    }

    function SetActuatorError(e: bool): Door {
      if actuatorError == e then this else this.(actuatorError := e, changed := true)
    }

    function SetSerial(text: seq<Byte>): Door {
      if serial == text then this else this.(serial := Cut(text, IDENT_SERIAL_LEN), changed := true)
    }

    function SetFirmware(text: seq<Byte>): Door {
      if firmware == text then this else this.(firmware := Cut(text, IDENT_FIRMWARE_LEN), changed := true)
    }
  }

  function Cut(text: seq<Byte>, len: nat): seq<Byte> {
    if |text| <= len then text else text[..len]
  }

  const NEW_DOOR := Door(0, 0, 0, false, false, false, DoorClosed, NeverSeen, false, [], [], false)

  class HoermannState {
    var targetPosition: Byte
    var currentPosition: Byte
    var gotoPosition: nat
    var lightOn: bool
    var relayOn: bool
    var actuatorError: bool
    var state: DoorState
    var link: Link
    var valid: bool
    var serialNumber: seq<Byte>
    var firmwareVersion: seq<Byte>
    var changed: bool

    ghost function View(): Door
      reads this
    {
      Door(targetPosition, currentPosition, gotoPosition, lightOn, relayOn, actuatorError,
           state, link, valid, serialNumber, firmwareVersion, changed)
    }

    constructor ()
      ensures View() == NEW_DOOR
    {
      targetPosition, currentPosition, gotoPosition := 0, 0, 0;
      lightOn, relayOn, actuatorError := false, false, false;
      state, link, valid := DoorClosed, NeverSeen, false;
      serialNumber, firmwareVersion, changed := [], [], false;
    }

    method SetTargetPosition(p: Byte)
      modifies this
      ensures View() == old(View()).(target := p, changed := true)
    {
      targetPosition := p;
      changed := true;
    }

    method SetGotoPosition(percent: nat)
      modifies this
      ensures View() == old(View()).SetGoto(percent)
    {
      gotoPosition := percent;
      changed := true;
    }

    method SetCurrentPosition(p: Byte)
      modifies this
      ensures View() == old(View()).(current := p, changed := true)
    {
      currentPosition := p;
      changed := true;
    }

    method SetLightOn(on: bool)
      modifies this
      ensures View() == old(View()).(lightOn := on, changed := true)
    {
      lightOn := on;
      changed := true;
    }

    method SetRelayOn(on: bool)
      modifies this
      ensures View() == old(View()).(relayOn := on, changed := true)
    {
      relayOn := on;
      changed := true;
    }

    method ClearChanged()
      modifies this
      ensures View() == old(View()).(changed := false)
    {
      changed := false;
    }

    method SetState(s: DoorState)
      modifies this
      ensures View() == old(View()).SetState(s)
    {
      var wasMoving := IsMoving(state);
      state := s;
      changed := true;
      if wasMoving && !IsMoving(s) {
        gotoPosition := 0;
      }
    }

    method SetActuatorError(e: bool)
      modifies this
      ensures View() == old(View()).SetActuatorError(e)
    {
      if actuatorError == e {
        return;
      }
      actuatorError := e;
      changed := true;
    }

    method SetValid(isValid: bool)
      modifies this
      ensures View() == old(View()).SetValid(isValid)
    {
      var was := valid;
      valid := isValid;
      if was == isValid {
        return;
      }
      changed := true;
    }

    method SetLink(l: Link)
      modifies this
      ensures View() == old(View()).SetLink(l)
    {
      var was := link;
      link := l;
      if was == l {
        return;
      }
      changed := true;
    }

    method SetSerialNumber(text: seq<Byte>)
      modifies this
      ensures View() == old(View()).SetSerial(text)
    {
      if serialNumber == text {
        return;
      }
      serialNumber := Cut(text, IDENT_SERIAL_LEN);
      changed := true;
    }

    method SetFirmwareVersion(text: seq<Byte>)
      modifies this
      ensures View() == old(View()).SetFirmware(text)
    {
      if firmwareVersion == text {
        return;
      }
      firmwareVersion := Cut(text, IDENT_FIRMWARE_LEN);
      changed := true;
    }
  }
}

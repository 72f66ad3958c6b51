/**
 * The modal in which a user moves an existing reservation to another slot: it
 * asks for the slots of one date and hour, offers the free ones plus the slot
 * already held, and lets the user save a different choice.
 */
module ReservationEditModal {
  import opened Wrappers
  import opened Seqs
  import opened Strings
  import opened SlotTypes

  /**
   * The query both slot searches send: the date, and the chosen hour as both
   * `startHour` and `endHour`.
   */
  function SlotQuery(date: string, hour: int): (params: seq<(string, string)>)
    ensures |params| == 3 && params[0] == ("date", date)
    ensures params[1].0 == "startHour" && params[2].0 == "endHour"
    ensures ParseInt(params[1].1) == Some(hour) && ParseInt(params[2].1) == Some(hour)
  {
    ParseIntIntString(hour);
    [("date", date), ("startHour", IntString(hour)), ("endHour", IntString(hour))]
  }

  /** The filter's test: a free slot, or the one the reservation holds now. */
  predicate Offered(slot: TimeSlot, currentSlotId: Option<int>) {
    slot.status == Available || currentSlotId == Some(slot.id)
  }

  /**
   * `data.filter(...)` in `fetchTimeSlots`: exactly the fetched slots that are
   * free or held by this reservation, in the order they were fetched.
   */
  function OfferedSlots(data: seq<TimeSlot>, currentSlotId: Option<int>): (r: seq<TimeSlot>)
    ensures IsSubsequence(r, data)
    ensures forall slot :: slot in r <==> slot in data && (slot.status == Available || currentSlotId == Some(slot.id))
    ensures forall slot :: slot in r && slot.status == Booked ==> currentSlotId == Some(slot.id)
  {
    Filter(data, slot => Offered(slot, currentSlotId))
  }

  /** How the request for slots ended. */
  datatype FetchResponse =
    | Ok(data: seq<TimeSlot>)
    | NotOk
    | Threw(message: string)

  /** The error texts the modal can show, by what they say. */
  datatype ErrorText = SlotsFetchFailed | Thrown(message: string)

  /** The modal's slot-picking state. */
  datatype Picker = Picker(
    timeSlots: seq<TimeSlot>,
    selectedTimeSlotId: Option<int>,
    isLoadingTimeSlots: bool,
    error: Option<ErrorText>)

  /** `fetchTimeSlots` up to the request: loading, no error, and no slot selected. */
  function BeginFetch(p: Picker): (r: Picker)
    ensures r.isLoadingTimeSlots && r.error == None && r.selectedTimeSlotId == None
    ensures r.timeSlots == p.timeSlots
  {
    p.(isLoadingTimeSlots := true, error := None, selectedTimeSlotId := None)
  }

  /**
   * `fetchTimeSlots` after the response: the offered slots on success, an error
   * otherwise (the list kept), and loading over either way.
   */
  function EndFetch(p: Picker, response: FetchResponse, currentSlotId: Option<int>): (r: Picker)
    ensures !r.isLoadingTimeSlots && r.selectedTimeSlotId == p.selectedTimeSlotId
    ensures response.Ok? ==> r.timeSlots == OfferedSlots(response.data, currentSlotId) && r.error == p.error
    ensures response.NotOk? ==> r.timeSlots == p.timeSlots && r.error == Some(SlotsFetchFailed)
    ensures response.Threw? ==> r.timeSlots == p.timeSlots && r.error == Some(Thrown(response.message))
  {
    var q := match response
      case Ok(data) => p.(timeSlots := OfferedSlots(data, currentSlotId))
      case NotOk => p.(error := Some(SlotsFetchFailed))
      case Threw(message) => p.(error := Some(Thrown(message)));
    q.(isLoadingTimeSlots := false)
  }

  /** The whole of `fetchTimeSlots` for one response. */
  function FetchTimeSlots(p: Picker, response: FetchResponse, currentSlotId: Option<int>): Picker {
    EndFetch(BeginFetch(p), response, currentSlotId)
  }

  /** A slot button's `onClick`: that slot becomes the selection. */
  function SelectSlot(p: Picker, slot: TimeSlot): (r: Picker)
    ensures r.selectedTimeSlotId == Some(slot.id)
    ensures r.timeSlots == p.timeSlots
  {
    p.(selectedTimeSlotId := Some(slot.id))
  }

  /** JavaScript truthiness of `number | null`: present and not 0. */
  predicate Truthy(id: Option<int>) {
    id.Some? && id.value != 0
  }

  /**
   * The save button's `disabled`: nothing (or id 0) selected, the selection is
   * the slot already held, or a save is under way.
   */
  predicate SaveDisabled(selected: Option<int>, currentSlotId: Option<int>, isSaving: bool) {
    !Truthy(selected) || (selected.Some? && selected == currentSlotId) || isSaving
  }

  /** `handleSave`: the arguments `onSave` is called with, when it is called at all. */
  function HandleSave(selected: Option<int>, reservationId: int): (call: Option<(int, int)>)
    ensures call.Some? <==> Truthy(selected)
    ensures call.Some? ==> call.value == (reservationId, selected.value)
  {
    if Truthy(selected) then Some((reservationId, selected.value)) else None
  }

  /**
   * A fetch for a new date or hour always leaves the save button disabled, so
   * no earlier choice can be saved against the new list.
   */
  lemma FetchDisablesSave(p: Picker, response: FetchResponse, currentSlotId: Option<int>, isSaving: bool)
    ensures FetchTimeSlots(p, response, currentSlotId).selectedTimeSlotId == None
    ensures SaveDisabled(FetchTimeSlots(p, response, currentSlotId).selectedTimeSlotId, currentSlotId, isSaving)
  {
  }

  /**
   * With the save button enabled, saving calls `onSave` with a slot other than
   * the one held; if that slot was picked from the offered list, it is free.
   */
  lemma EnabledSaveMovesToFreeSlot(data: seq<TimeSlot>, currentSlotId: Option<int>, slot: TimeSlot,
                                   isSaving: bool, reservationId: int)
    requires slot in OfferedSlots(data, currentSlotId)
    requires !SaveDisabled(Some(slot.id), currentSlotId, isSaving)
    ensures HandleSave(Some(slot.id), reservationId) == Some((reservationId, slot.id))
    ensures currentSlotId != Some(slot.id) && !isSaving
    ensures slot in data && slot.status == Available
  {
  }

  /** Selecting an offered slot and saving: the button is enabled exactly for a non-zero id other than the held one. */
  lemma SelectThenSave(p: Picker, slot: TimeSlot, currentSlotId: Option<int>, isSaving: bool)
    ensures !SaveDisabled(SelectSlot(p, slot).selectedTimeSlotId, currentSlotId, isSaving)
      <==> slot.id != 0 && currentSlotId != Some(slot.id) && !isSaving
  {
  }
}

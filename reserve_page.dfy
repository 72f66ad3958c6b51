/**
 * The reservation page: which screen it shows, how each slot of the chosen
 * hour is presented and whether it can be clicked, the slot search it sends,
 * and the request it makes when the team of a reservation is saved.
 */
module ReservePage {
  import opened Wrappers
  import opened Strings
  import opened SlotTypes
  import opened Seed
  import opened ApiPaths
  import ReservationEditModal
  import TeamEditModal

  /** The background a slot button gets. */
  datatype SlotColour = Grey | Red | Green

  /** The status line under a slot's time, by what it says. */
  datatype StatusText = NoReservationNeeded | BookedByOthers | CanReserve

  /** One rendered slot: its Japan-time label, colour, status line, and the slot its `onClick` opens the modal for. */
  datatype SlotButton = SlotButton(timeString: string, colour: SlotColour, statusText: StatusText, onClick: Option<TimeSlot>)

  /**
   * The per-slot branch of the slot list: a walk-in slot is grey and says no
   * reservation is needed, whatever its status; a booked reservable slot is
   * red; only a free reservable slot is green and opens the modal, for itself.
   */
  function SlotButtonFor(slot: TimeSlot): (b: SlotButton)
    ensures b.timeString == FormatJstTime(ConvertUtcToJst(slot.slotTime))
    ensures b.onClick.Some? <==> slot.slotType == Reservable && slot.status == Available
    ensures b.onClick.Some? ==> b.onClick.value == slot
    ensures slot.slotType == WalkIn ==> b.colour == Grey && b.statusText == NoReservationNeeded
    ensures slot.slotType == Reservable && slot.status == Booked ==> b.colour == Red && b.statusText == BookedByOthers
    ensures b.colour == Green <==> b.onClick.Some?
    ensures b.statusText == CanReserve <==> b.onClick.Some?
  {
    var timeString := FormatJstTime(ConvertUtcToJst(slot.slotTime));
    match (slot.slotType, slot.status)
    case (WalkIn, _) => SlotButton(timeString, Grey, NoReservationNeeded, None)
    case (Reservable, Booked) => SlotButton(timeString, Red, BookedByOthers, None)
    case (Reservable, Available) => SlotButton(timeString, Green, CanReserve, Some(slot))
  }

  /**
   * On a freshly seeded database, row `k` of the seed can be clicked exactly
   * when `k` is odd: the even rows are walk-in slots and every row is free.
   */
  lemma SeededSlotClickable(days: seq<int>, k: nat, slot: TimeSlot)
    requires k < |SeedSlots(days)|
    requires slot.slotType == SeedSlots(days)[k].slotType && slot.status == SeedSlots(days)[k].status
    ensures SlotButtonFor(slot).onClick.Some? <==> k % 2 == 1
  {
    SeedSlotKind(days, k);
    assert slot.status == Available;
    if k % 2 == 0 {
      assert slot.slotType == WalkIn;
    } else {
      assert slot.slotType == Reservable;
    }
  }

  /** The reservation record inside the `my-reservation` response. */
  datatype Reservation = Reservation(id: int, teamId: Option<int>, timeSlotId: int)

  /** The `my-reservation` response body: a reservation, its team and its slot, each possibly missing. */
  datatype MyReservationResponse = MyReservationResponse(
    reservation: Option<Reservation>,
    teamId: Option<int>,
    timeSlotId: Option<int>)

  /** `UserReservation`: a response that does hold a reservation. */
  datatype UserReservation = UserReservation(reservation: Reservation, teamId: Option<int>, timeSlotId: Option<int>)

  /** `data.reservation ? data : null`: the response is kept only when it holds a reservation. */
  function KeepReservation(data: MyReservationResponse): (r: Option<UserReservation>)
    ensures r.Some? <==> data.reservation.Some?
    ensures r.Some? ==> r.value == UserReservation(data.reservation.value, data.teamId, data.timeSlotId)
  {
    if data.reservation.Some? then Some(UserReservation(data.reservation.value, data.teamId, data.timeSlotId)) else None
  }

  /** How one of the page's requests ended. */
  datatype Response<T> = Ok(body: T) | NotOk | Threw(message: string)

  /** The page-level error texts, by what they say. */
  datatype PageError = ReservationFetchFailed | SlotsFetchFailed | Thrown(message: string)

  /** The page state the main card depends on. */
  datatype PageState = PageState(
    userReservation: Option<UserReservation>,
    isLoadingUserReservation: bool,
    timeSlots: seq<TimeSlot>,
    isTimeSlotsLoading: bool,
    showTimeSlots: bool,
    error: Option<PageError>)

  /** The screens the page can show. */
  datatype Screen =
    | ErrorScreen(error: PageError)
    | LoadingReservation
    | Confirmation(reservation: UserReservation)
    | DateHourPicker
    | NoSlots
    | SlotList(buttons: seq<SlotButton>)

  /**
   * What the page renders: an error replaces everything; otherwise a spinner
   * while the reservation loads, the confirmation when the user already holds
   * a reservation, the date and hour picker until a search was made, and then
   * the slot buttons, or a note that the hour has none.
   */
  function ScreenOf(st: PageState): (s: Screen)
    ensures st.error.Some? <==> s.ErrorScreen?
    ensures s.Confirmation? <==> st.error.None? && !st.isLoadingUserReservation && st.userReservation.Some?
    ensures s.SlotList? ==> st.userReservation.None? && st.showTimeSlots && |s.buttons| == |st.timeSlots|
    ensures s.SlotList? ==> forall i :: 0 <= i < |s.buttons| ==> s.buttons[i] == SlotButtonFor(st.timeSlots[i])
  {
    if st.error.Some? then ErrorScreen(st.error.value)
    else if st.isLoadingUserReservation then LoadingReservation
    else if st.userReservation.Some? then Confirmation(st.userReservation.value)
    else if !st.showTimeSlots then DateHourPicker
    else if |st.timeSlots| == 0 then NoSlots
    else SlotList(seq(|st.timeSlots|, i requires 0 <= i < |st.timeSlots| => SlotButtonFor(st.timeSlots[i])))
  }

  /** `fetchUserReservation` (and its twin run on mount) for one response. */
  function FetchUserReservation(st: PageState, response: Response<MyReservationResponse>): (r: PageState)
    ensures !r.isLoadingUserReservation
    ensures response.Ok? ==> r.userReservation == KeepReservation(response.body) && r.error.None?
    ensures response.NotOk? ==> r.userReservation == st.userReservation && r.error == Some(ReservationFetchFailed)
    ensures response.Threw? ==> r.userReservation == st.userReservation && r.error == Some(Thrown(response.message))
    ensures r.timeSlots == st.timeSlots && r.showTimeSlots == st.showTimeSlots
  {
    var loading := st.(isLoadingUserReservation := true, error := None);
    var done := match response
      case Ok(data) => loading.(userReservation := KeepReservation(data))
      case NotOk => loading.(error := Some(ReservationFetchFailed))
      case Threw(message) => loading.(error := Some(Thrown(message)));
    done.(isLoadingUserReservation := false)
  }

  /**
   * Once the reservation has loaded and holds a reservation, the confirmation
   * replaces the slot picker; without one, the page goes back to picking.
   */
  lemma ExistingReservationGate(st: PageState, data: MyReservationResponse)
    ensures var s := ScreenOf(FetchUserReservation(st, Ok(data)));
      data.reservation.Some? ==> s == Confirmation(KeepReservation(data).value)
    ensures var s := ScreenOf(FetchUserReservation(st, Ok(data)));
      data.reservation.None? ==> !s.Confirmation? && !s.ErrorScreen? && !s.LoadingReservation?
  {
  }

  /** The page's `fetchTimeSlots`: the slot list is shown at once, and the search screen comes back on failure. */
  function FetchPageTimeSlots(st: PageState, response: Response<seq<TimeSlot>>): (r: PageState)
    ensures !r.isTimeSlotsLoading
    ensures response.Ok? ==> r.timeSlots == response.body && r.showTimeSlots && r.error.None?
    ensures !response.Ok? ==> r.timeSlots == st.timeSlots && !r.showTimeSlots
    ensures response.NotOk? ==> r.error == Some(SlotsFetchFailed)
    ensures response.Threw? ==> r.error == Some(Thrown(response.message))
    ensures r.userReservation == st.userReservation && r.isLoadingUserReservation == st.isLoadingUserReservation
  {
    var loading := st.(isTimeSlotsLoading := true, error := None, showTimeSlots := true);
    var done := match response
      case Ok(data) => loading.(timeSlots := data)
      case NotOk => loading.(error := Some(SlotsFetchFailed), showTimeSlots := false)
      case Threw(message) => loading.(error := Some(Thrown(message)), showTimeSlots := false);
    done.(isTimeSlotsLoading := false)
  }

  /** The search button: shown once a date and an hour are chosen, it asks for that single hour. */
  function SearchQuery(selectedDate: string, selectedHour: Option<int>): (q: Option<seq<(string, string)>>)
    ensures q.Some? <==> selectedDate != "" && selectedHour.Some?
    ensures q.Some? ==> q.value == ReservationEditModal.SlotQuery(selectedDate, selectedHour.value)
  {
    if selectedDate != "" && selectedHour.Some? then Some(ReservationEditModal.SlotQuery(selectedDate, selectedHour.value)) else None
  }

  /** A successful search shows exactly one button per fetched slot, in the order fetched. */
  lemma SearchShowsEverySlot(st: PageState, data: seq<TimeSlot>)
    requires st.error.None? && !st.isLoadingUserReservation && st.userReservation.None?
    requires data != []
    ensures ScreenOf(FetchPageTimeSlots(st, Ok(data))) == SlotList(seq(|data|, i requires 0 <= i < |data| => SlotButtonFor(data[i])))
  {
  }

  datatype HttpMethod = Post | Patch

  /** A team request: method, path, and the JSON body. */
  datatype TeamRequest = TeamRequest(httpMethod: HttpMethod, path: string, body: TeamEditModal.TeamPayload)

  /**
   * `handleEditTeam`: `teamId` -1 asks for a new team on the reservation
   * (whose id is written "undefined" when there is none), any other id edits
   * that team.
   */
  function EditTeamRequest(teamId: int, userReservation: Option<UserReservation>, teamData: TeamEditModal.TeamPayload): (r: TeamRequest)
    ensures r.httpMethod == Post <==> teamId == -1
    ensures r.body == teamData
    ensures teamId == -1 ==>
      Split(r.path, '/') == ["", "api", "reservations", IdSegment(ReservationId(userReservation)), "add-team"]
    ensures teamId != -1 ==> Split(r.path, '/') == ["", "api", "teams", IntString(teamId)]
  {
    if teamId == -1 then TeamRequest(Post, AddTeamPath(ReservationId(userReservation)), teamData)
    else TeamRequest(Patch, TeamPath(teamId), teamData)
  }

  /** `userReservation?.reservation.id`. */
  function ReservationId(userReservation: Option<UserReservation>): Option<int> {
    if userReservation.Some? then Some(userReservation.value.reservation.id) else None
  }

  /**
   * The team modal and the page agree: saving a reservation that has no team
   * posts a new team to that reservation, and saving an existing team (any id
   * but -1) patches that team, whose id reads back from the path.
   */
  lemma TeamSaveRoutes(team: Option<TeamEditModal.Team>, userReservation: UserReservation, teamData: TeamEditModal.TeamPayload)
    requires team.Some? ==> team.value.id != -1
    ensures var r := EditTeamRequest(TeamEditModal.SaveTeamId(team), Some(userReservation), teamData);
      team.None? ==>
        r.httpMethod == Post && ParseInt(Split(r.path, '/')[3]) == Some(userReservation.reservation.id)
    ensures var r := EditTeamRequest(TeamEditModal.SaveTeamId(team), Some(userReservation), teamData);
      team.Some? ==> r.httpMethod == Patch && ParseInt(Split(r.path, '/')[3]) == Some(team.value.id)
  {
    ParseIntIntString(userReservation.reservation.id);
    if team.Some? {
      ParseIntIntString(team.value.id);
    }
  }
}

/** The administrator panel (src/components/AdminPanel.js): the user list
    with its class filter and donation badges, the edit dialog and its save
    rule, the password reset prompt, the pending pins and the donation
    approve / reject buttons. Server calls are outcomes given to the
    handlers. A field the server leaves out is its falsy default here: the
    empty string, 0 or false. */
module AdminPanel {
  import opened Common
  import opened Seqs
  import opened StringOrder

  datatype User = User(userId: string, id: string, name: string, userType: string,
                       studentClass: string, donationAmount: real, hasDonated: bool,
                       donationStatus: string, recordedAmount: real)

  datatype PendingPin = PendingPin(pinId: string, userDisplayName: string, regionName: string,
                                   description: string, images: seq<string>)

  datatype EditForm = EditForm(name: string, donationAmount: real, hasDonated: bool, donationStatus: string)

  /** `editingUser.userId || editingUser.id`. */
  function UserIdOf(u: User): string {
    if u.userId != "" then u.userId else u.id
  }

  /** `handleEditUser`'s form: missing amount 0, missing status "pending". */
  function EditDefaults(u: User): (f: EditForm)
    ensures f.name == u.name && f.hasDonated == u.hasDonated
    ensures f.donationAmount == u.donationAmount
    ensures f.donationStatus != ""
    ensures f.donationStatus == (if u.donationStatus == "" then "pending" else u.donationStatus)
  {
    EditForm(u.name, u.donationAmount, u.hasDonated,
             if u.donationStatus == "" then "pending" else u.donationStatus)
  }

  /** The status names of the save note; any other status reads
      "undefined". */
  function StatusText(status: string): string {
    if status == "pending" then "Очікує перевірки"
    else if status == "verified" then "Підтверджено"
    else if status == "rejected" then "Відхилено"
    else "undefined"
  }

  /** The confirmation shown after a save, before " для " and the name. */
  datatype SaveMessage = DonationConfirmed(amount: real) | DonationRejected | StatusUpdated

  datatype DonationRequest = DonationRequest(userId: string, amount: real, notes: string)

  datatype SaveOutcome = NotEditing | Refused | Send(request: DonationRequest, message: SaveMessage)

  const RefusedAlert: string := "Для підтвердження донату введіть суму більше 0"

  /** `handleSaveUser` up to the server call. */
  function SaveDecision(editing: Option<User>, form: EditForm): (o: SaveOutcome)
    ensures o.NotEditing? <==> editing.None?
    ensures o.Refused? <==> editing.Some? && form.donationStatus == "verified" && form.donationAmount <= 0.0
    ensures o.Send? ==>
              && o.request.userId == UserIdOf(editing.value)
              && o.request.amount == (if form.donationStatus == "rejected" then 0.0 else form.donationAmount)
              && (form.donationStatus == "verified" ==> o.request.amount > 0.0)
              && (form.donationAmount >= 0.0 ==> o.request.amount >= 0.0)
    ensures o.Send? ==>
              (o.message.DonationConfirmed? <==> form.donationStatus == "verified")
              && (o.message.DonationRejected? <==> form.donationStatus == "rejected")
  {
    if editing.None? then NotEditing
    else if form.donationStatus == "verified" && form.donationAmount <= 0.0 then Refused
    else
      var amount := if form.donationStatus == "rejected" then 0.0 else form.donationAmount;
      var notes := "Статус: " + StatusText(form.donationStatus) + ". Встановлено адміністратором.";
      var message :=
        if form.donationStatus == "verified" then DonationConfirmed(form.donationAmount)
        else if form.donationStatus == "rejected" then DonationRejected
        else StatusUpdated;
      Send(DonationRequest(UserIdOf(editing.value), amount, notes), message)
  }

  datatype ResetOutcome = Ignored | TooShort | SendPassword(password: string)

  /** `handleResetPassword` after the prompt (None when cancelled). */
  function ResetDecision(answer: Option<string>): (o: ResetOutcome)
    ensures o.Ignored? <==> answer.None? || answer.value == ""
    ensures o.TooShort? <==> answer.Some? && 0 < |answer.value| < 6
    ensures o.SendPassword? ==> answer == Some(o.password) && |o.password| >= 6
  {
    if answer.None? || answer.value == "" then Ignored
    else if |answer.value| < 6 then TooShort
    else SendPassword(answer.value)
  }

  /** `parseFloat(input.value) || 0`; None stands for NaN. */
  function AmountOf(parsed: Option<real>): (a: real)
    ensures parsed.None? ==> a == 0.0
    ensures parsed.Some? ==> a == parsed.value
  {
    if parsed.None? then 0.0 else parsed.value
  }

  /** The approve button of a pending donation: refused unless the amount
      is positive. */
  function ApproveDonation(userId: string, parsed: Option<real>): (r: Option<DonationRequest>)
    ensures r.Some? <==> parsed.Some? && parsed.value > 0.0
    ensures r.Some? ==> r.value.userId == userId && r.value.amount == parsed.value && r.value.amount > 0.0
  {
    var amount := AmountOf(parsed);
    if amount <= 0.0 then None else Some(DonationRequest(userId, amount, "Підтверджено адміністратором"))
  }

  /** The reject button: always amount 0. */
  function RejectDonation(userId: string): (r: DonationRequest)
    ensures r.userId == userId && r.amount == 0.0
  {
    DonationRequest(userId, 0.0, "Підтверджено адміністратором")
  }

  /** The four donation states the user list and the edit dialog show. */
  datatype DonationState = Donated(shownAmount: real) | PendingDonation | RejectedDonation | NoDonation

  function DonationStateOf(u: User): (s: DonationState)
    ensures s.Donated? <==> u.hasDonated || u.donationStatus == "verified"
    ensures s.PendingDonation? <==> !s.Donated? && u.donationStatus == "pending"
    ensures s.RejectedDonation? <==> !s.Donated? && u.donationStatus == "rejected"
    ensures s.Donated? ==>
              s.shownAmount == (if u.donationAmount != 0.0 then u.donationAmount else u.recordedAmount)
  {
    if u.hasDonated || u.donationStatus == "verified" then
      Donated(if u.donationAmount != 0.0 then u.donationAmount
              else if u.recordedAmount != 0.0 then u.recordedAmount else 0.0)
    else if u.donationStatus == "pending" then PendingDonation
    else if u.donationStatus == "rejected" then RejectedDonation
    else NoDonation
  }

  /** The badge's CSS class in the user list. */
  function BadgeClass(s: DonationState): string {
    match s
    case Donated(_) => "donated"
    case PendingDonation => "pending"
    case RejectedDonation => "rejected"
    case NoDonation => ""
  }

  /** Every user gets exactly one of the four badges, and the badge class
      names which. */
  lemma BadgeClassesDistinct(u: User, v: User)
    ensures BadgeClass(DonationStateOf(u)) == BadgeClass(DonationStateOf(v)) <==>
              (DonationStateOf(u).Donated? && DonationStateOf(v).Donated?)
              || DonationStateOf(u) == DonationStateOf(v)
  {
  }

  function HasClass(filter: string): User -> bool {
    (u: User) => u.studentClass == filter
  }

  /** `filteredUsers`: every user for the empty filter, otherwise those of
      that class, in order. */
  function FilteredUsers(users: seq<User>, filter: string): (r: seq<User>)
    ensures filter == "" ==> r == users
    ensures filter != "" ==>
              (forall i :: 0 <= i < |r| ==> r[i] in users && r[i].studentClass == filter)
              && (forall i :: 0 <= i < |users| && users[i].studentClass == filter ==> users[i] in r)
  {
    if filter == "" then users else Filter(users, HasClass(filter))
  }

  /** The filtered list keeps the users' order and multiplicity: filtering a
      split list filters each part, and a single user is kept exactly when
      the filter is empty or names that user's class. */
  lemma FilteredUsersInOrder(a: seq<User>, b: seq<User>, u: User, filter: string)
    ensures FilteredUsers(a + b, filter) == FilteredUsers(a, filter) + FilteredUsers(b, filter)
    ensures FilteredUsers([u], filter) == if filter == "" || u.studentClass == filter then [u] else []
  {
    if filter != "" {
      FilterAppend(a, b, HasClass(filter));
      assert [u][1..] == [];
    }
  }

  /** The non-empty classes of `users`, in order. */
  function ClassesOf(users: seq<User>): (r: seq<string>)
    ensures forall c :: c in r <==> c != "" && exists i :: 0 <= i < |users| && users[i].studentClass == c
  {
    if users == [] then []
    else
      var rest := ClassesOf(users[1..]);
      assert forall i :: 1 <= i < |users| ==> users[i] == users[1..][i - 1];
      (if users[0].studentClass != "" then [users[0].studentClass] else []) + rest
  }

  /** `availableClasses`: the distinct non-empty classes, sorted. */
  function AvailableClasses(users: seq<User>): (r: seq<string>)
    ensures StrictlySorted(r)
    ensures forall c :: c in r <==> c != "" && exists i :: 0 <= i < |users| && users[i].studentClass == c
  {
    SortedSet(ClassesOf(users))
  }

  /** The list of classes has no duplicates, and is the only sorted list
      with those classes. */
  lemma AvailableClassesCanonical(users: seq<User>, other: seq<string>)
    requires StrictlySorted(other)
    requires forall c :: c in other <==> c != "" && exists i :: 0 <= i < |users| && users[i].studentClass == c
    ensures other == AvailableClasses(users)
    ensures forall i, j :: 0 <= i < j < |other| ==> other[i] != other[j]
  {
    SortedUnique(other, AvailableClasses(users));
    SortedIsDistinct(other);
  }

  function OtherPin(pinId: string): PendingPin -> bool {
    (p: PendingPin) => p.pinId != pinId
  }

  /** The list after a successful verification. */
  function WithoutPin(pins: seq<PendingPin>, pinId: string): seq<PendingPin> {
    Filter(pins, OtherPin(pinId))
  }

  /** Verifying a pin removes exactly the entries with its id: none is
      left, every other entry stays, an absent id changes nothing, and
      entries removed before and after a split stay in the same order. */
  lemma WithoutPinProperties(pins: seq<PendingPin>, pinId: string, front: seq<PendingPin>, back: seq<PendingPin>)
    requires pins == front + back
    ensures forall i :: 0 <= i < |WithoutPin(pins, pinId)| ==> WithoutPin(pins, pinId)[i].pinId != pinId
    ensures forall i :: 0 <= i < |pins| && pins[i].pinId != pinId ==> pins[i] in WithoutPin(pins, pinId)
    ensures (forall i :: 0 <= i < |pins| ==> pins[i].pinId != pinId) ==> WithoutPin(pins, pinId) == pins
    ensures WithoutPin(pins, pinId) == WithoutPin(front, pinId) + WithoutPin(back, pinId)
  {
    FilterAppend(front, back, OtherPin(pinId));
    if forall i :: 0 <= i < |pins| ==> pins[i].pinId != pinId {
      FilterKeepsAll(pins, OtherPin(pinId));
    }
  }

  class Panel {
    var users: seq<User>
    var availableClasses: seq<string>
    var pendingPins: seq<PendingPin>
    var filterClass: string
    var editingUser: Option<User>
    var editForm: Option<EditForm>

    /** An open edit dialog has its form; the class list matches the users. */
    ghost predicate Valid()
      reads this
    {
      && (editingUser.Some? ==> editForm.Some?)
      && availableClasses == AvailableClasses(users)
    }

    constructor ()
      ensures Valid()
      ensures users == [] && pendingPins == [] && filterClass == "" && editingUser.None? && editForm.None?
    {
      users := [];
      availableClasses := AvailableClasses([]);
      pendingPins := [];
      filterClass := "";
      editingUser := None;
      editForm := None;
    }

    /** The part of `loadData` that stores a loaded user list and the
        pending pins. */
    method Loaded(list: seq<User>, pins: seq<PendingPin>)
      requires Valid()
      modifies this
      ensures Valid()
      ensures users == list && pendingPins == pins
      ensures StrictlySorted(availableClasses)
      ensures forall c :: c in availableClasses <==> c != "" && exists i :: 0 <= i < |list| && list[i].studentClass == c
      ensures filterClass == old(filterClass) && editingUser == old(editingUser) && editForm == old(editForm)
    {
      users := list;
      availableClasses := AvailableClasses(list);
      pendingPins := pins;
    }

    method SetFilter(c: string)
      requires Valid()
      modifies this
      ensures Valid()
      ensures filterClass == c
      ensures users == old(users) && pendingPins == old(pendingPins)
      ensures editingUser == old(editingUser) && editForm == old(editForm)
    {
      filterClass := c;
    }

    /** `handleEditUser`. */
    method EditUser(u: User)
      requires Valid()
      modifies this
      ensures Valid()
      ensures editingUser == Some(u) && editForm == Some(EditDefaults(u))
      ensures editForm.value.donationStatus != ""
      ensures users == old(users) && pendingPins == old(pendingPins) && filterClass == old(filterClass)
    {
      editingUser := Some(u);
      editForm := Some(EditDefaults(u));
    }

    /** The amount input: `parseFloat(value) || 0`. */
    method EditAmount(parsed: Option<real>)
      requires Valid() && editForm.Some?
      modifies this
      ensures Valid()
      ensures editForm == Some(old(editForm).value.(donationAmount := AmountOf(parsed)))
      ensures editingUser == old(editingUser)
      ensures users == old(users) && pendingPins == old(pendingPins) && filterClass == old(filterClass)
    {
      editForm := Some(editForm.value.(donationAmount := AmountOf(parsed)));
    }

    /** The status select, which offers the three known statuses. */
    method EditStatus(status: string)
      requires Valid() && editForm.Some?
      requires status == "pending" || status == "verified" || status == "rejected"
      modifies this
      ensures Valid()
      ensures editForm == Some(old(editForm).value.(donationStatus := status))
      ensures editingUser == old(editingUser)
      ensures users == old(users) && pendingPins == old(pendingPins) && filterClass == old(filterClass)
    {
      editForm := Some(editForm.value.(donationStatus := status));
    }

    /** The cancel button and the overlay: the dialog closes, the form is
        left as it was. */
    method CancelEdit()
      requires Valid()
      modifies this
      ensures Valid()
      ensures editingUser.None? && editForm == old(editForm)
      ensures users == old(users) && pendingPins == old(pendingPins) && filterClass == old(filterClass)
    {
      editingUser := None;
    }

    /** `handleSaveUser`; `serverOk` is the outcome of the donation call.
        Only an accepted call closes the dialog. */
    method SaveUser(serverOk: bool) returns (outcome: SaveOutcome)
      requires Valid()
      modifies this
      ensures Valid()
      ensures old(editingUser).None? ==> outcome == NotEditing
      ensures old(editingUser).Some? ==> outcome == SaveDecision(old(editingUser), old(editForm).value)
      ensures outcome.Send? && serverOk ==> editingUser.None? && editForm.None?
      ensures !(outcome.Send? && serverOk) ==> editingUser == old(editingUser) && editForm == old(editForm)
      ensures users == old(users) && pendingPins == old(pendingPins) && filterClass == old(filterClass)
    {
      if editingUser.None? {
        return NotEditing;
      }
      outcome := SaveDecision(editingUser, editForm.value);
      if outcome.Send? && serverOk {
        editingUser := None;
        editForm := None;
      }
    }

    /** `handleVerifyPin`; `serverOk` is the outcome of the call. */
    method VerifyPin(pinId: string, serverOk: bool)
      requires Valid()
      modifies this
      ensures Valid()
      ensures serverOk ==> pendingPins == WithoutPin(old(pendingPins), pinId)
      ensures !serverOk ==> pendingPins == old(pendingPins)
      ensures |pendingPins| <= |old(pendingPins)|
      ensures users == old(users) && filterClass == old(filterClass)
      ensures editingUser == old(editingUser) && editForm == old(editForm)
    {
      if serverOk {
        pendingPins := WithoutPin(pendingPins, pinId);
      }
    }
  }
}

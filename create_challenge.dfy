/** The admin's create-challenge form: picking a start date pre-fills the end date 30 days
    later, and submitting stores the challenge only when every required field is filled in
    and the challenge lasts 28 to 31 days. Dates are day numbers; an empty date field is
    `None`. */
module CreateChallenge {

  import opened Common
  import opened Store

  /** Days the end date is set after a newly picked start date. */
  const DefaultLength := 30
  const MinLength := 28
  const MaxLength := 31

  /** The length check of a submission. Dates are whole days, so the rounded-up difference
      of the two midnights is the plain difference of the day numbers. */
  predicate LengthAccepted(startDate: Day, endDate: Day)
  {
    MinLength <= endDate - startDate <= MaxLength
  }

  /** An accepted length means the challenge ends at least four weeks after it starts. */
  lemma AcceptedLengthOrdersDates(startDate: Day, endDate: Day)
    requires LengthAccepted(startDate, endDate)
    ensures startDate < endDate && endDate - startDate >= 4 * 7
  {
  }

  /** The error banner of the form. */
  datatype Message = NoMessage | MissingFields | BadLength

  class CreateChallengeForm {
    const db: Db
    /** The signed-in admin, if any; stored as the challenge's `adminId`. */
    const adminId: Option<Id>
    var title: string
    var description: string
    var startDate: Option<Day>
    var endDate: Option<Day>
    var rules: string
    var error: Message

    constructor (db: Db, adminId: Option<Id>)
      ensures this.db == db && this.adminId == adminId
      ensures title == "" && description == "" && rules == ""
      ensures startDate.None? && endDate.None? && error == NoMessage
    {
      this.db := db;
      this.adminId := adminId;
      title, description, rules := "", "", "";
      startDate, endDate := None, None;
      error := NoMessage;
    }

    /** Whether the four required fields are filled in. */
    predicate Complete()
      reads this
    {
      title != "" && description != "" && startDate.Some? && endDate.Some?
    }

    /** Types into the text fields. */
    method SetFields(title: string, description: string, rules: string)
      modifies this`title, this`description, this`rules
      ensures this.title == title && this.description == description && this.rules == rules
    {
      this.title, this.description, this.rules := title, description, rules;
    }

    /** Picking a start date also sets the end date 30 days later; clearing it leaves the end
        date as it was. */
    method HandleStartDateChange(date: Option<Day>)
      modifies this`startDate, this`endDate
      ensures startDate == date
      ensures date.Some? ==> endDate == Some(date.value + DefaultLength)
      ensures date.None? ==> endDate == old(endDate)
    {
      startDate := date;
      if date.Some? {
        endDate := Some(date.value + DefaultLength);
      }
    }

    /** Picks the end date by hand. */
    method SetEndDate(date: Option<Day>)
      modifies this`endDate
      ensures endDate == date
    {
      endDate := date;
    }

    /** Submits the form. `newId` is the id the store gives the new document. A challenge is
        stored exactly when the form is complete and its length is accepted; it is stored as
        active, with no rules when the rules field is empty. */
    method HandleSubmit(newId: Id) returns (created: bool)
      modifies db`challenges, this`error
      ensures created <==> Complete() && LengthAccepted(startDate.value, endDate.value)
      ensures !Complete() ==> error == MissingFields
      ensures Complete() && !LengthAccepted(startDate.value, endDate.value) ==> error == BadLength
      ensures !created ==> db.challenges == old(db.challenges)
      ensures created ==>
        error == NoMessage &&
        db.challenges == old(db.challenges) + [ChallengeDoc(newId, title, description,
          startDate.value, endDate.value, if rules == "" then None else Some(rules), "active", adminId)]
      ensures created ==> startDate.value < endDate.value
    {
      if title == "" || description == "" || startDate.None? || endDate.None? {
        error := MissingFields;
        return false;
      }
      if !LengthAccepted(startDate.value, endDate.value) {
        error := BadLength;
        return false;
      }
      error := NoMessage;
      AcceptedLengthOrdersDates(startDate.value, endDate.value);
      var doc := ChallengeDoc(newId, title, description, startDate.value, endDate.value,
                              if rules == "" then None else Some(rules), "active", adminId);
      db.AddChallenge(doc);
      created := true;
    }
  }

  /** Filling in the title and description and only picking a start date is enough: the
      pre-filled end date always passes the length check. */
  method FillAndSubmit(db: Db, adminId: Option<Id>, title: string, description: string,
                       start: Day, newId: Id) returns (created: bool)
    requires title != "" && description != ""
    modifies db`challenges
    ensures created
    ensures |db.challenges| == |old(db.challenges)| + 1
    ensures db.challenges[|db.challenges| - 1].startDate == start
    ensures db.challenges[|db.challenges| - 1].endDate == start + DefaultLength
  {
    var form := new CreateChallengeForm(db, adminId);
    form.SetFields(title, description, "");
    form.HandleStartDateChange(Some(start));
    created := form.HandleSubmit(newId);
  }
}

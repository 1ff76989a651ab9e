/**
  * service_requests/models.py and web/forms.py: a service request's expiry
  * date is thirty days after the part was received. The model sets it on
  * every save; the edit form sets it in its cleaned data, so the page shows
  * the same date before the record is saved. Dates are day numbers.
  */
module ServiceRequests {
  import opened Wrappers

  datatype RequestType = Radio | Vor
  datatype WarrantyType = MoparWarranty | CustomerPay | RegularWarranty | GoodWill
  datatype Status = Open | InProgress | Done | Cancelled

  /** Days from receipt to expiry (`timedelta(days=30)`). */
  const ExpiryDays: int := 30

  /** The stored fields of a service request; users are referred to by id. */
  datatype Record = Record(
    requestType: RequestType,
    partNumber: string,
    vin: string,
    roNumber: string,
    customerName: string,
    customerNumber: string,
    warrantyType: WarrantyType,
    orderedDate: Option<int>,
    receivedDate: Option<int>,
    expiryDate: Option<int>,
    status: Status,
    createdBy: Option<nat>,
    assignedTo: Option<nat>,
    notes: string)

  /** The expiry date a save stores: thirty days after receipt when received, else the one already there. */
  function ExpiryOnSave(received: Option<int>, expiry: Option<int>): Option<int> {
    if received.Some? then Some(received.value + ExpiryDays) else expiry
  }

  /** The record `ServiceRequest.save` stores. */
  function Saved(r: Record): Record {
    r.(expiryDate := ExpiryOnSave(r.receivedDate, r.expiryDate))
  }

  /**
    * Saving a received request stores an expiry thirty days after receipt;
    * saving one not yet received keeps its expiry; no other field changes.
    */
  lemma SavedShape(r: Record)
    ensures r.receivedDate.Some? ==> Saved(r).expiryDate == Some(r.receivedDate.value + 30)
    ensures r.receivedDate.None? ==> Saved(r) == r
    ensures Saved(r).(expiryDate := r.expiryDate) == r
  {
  }

  /** Saving twice stores what saving once does. */
  lemma SavedIdempotent(r: Record)
    ensures Saved(Saved(r)) == Saved(r)
  {
  }

  /** A `ServiceRequest` instance. */
  class ServiceRequest {
    var record: Record

    /** A new request of type `requestType` with the field defaults. */
    constructor (requestType: RequestType)
      ensures record.requestType == requestType
      ensures record.warrantyType == MoparWarranty && record.status == Open
      ensures record.orderedDate.None? && record.receivedDate.None? && record.expiryDate.None?
      ensures record.createdBy.None? && record.assignedTo.None?
      ensures record.partNumber == record.vin == record.roNumber == record.customerName == record.customerNumber == record.notes == ""
    {
      record := Record(requestType, "", "", "", "", "", MoparWarranty, None, None, None, Open, None, None, "");
    }

    /** `save`: fills in the expiry date and returns what is stored. */
    method Save() returns (stored: Record)
      modifies this
      ensures record == Saved(old(record))
      ensures stored == record
    {
      if record.receivedDate.Some? {
        record := record.(expiryDate := Some(record.receivedDate.value + ExpiryDays));
      }
      stored := record;
    }
  }

  // ------------------------------------------------------------------- form

  /** A value in a form's cleaned data. */
  datatype Value = DateValue(day: int) | NoValue | TextValue(text: string)

  /** `received_date` is a date field that may be left empty: if present it is a date or empty. */
  predicate WellTyped(data: map<string, Value>) {
    "received_date" in data ==> !data["received_date"].TextValue?
  }

  /** `cleaned_data.get(key)` read as a date. */
  function DateOf(data: map<string, Value>, key: string): Option<int> {
    if key in data && data[key].DateValue? then Some(data[key].day) else None
  }

  /** The cleaned data `ServiceRequestForm.clean` returns. */
  function CleanRule(data: map<string, Value>): map<string, Value>
    requires WellTyped(data)
  {
    var received := DateOf(data, "received_date");
    if received.Some? then data["expiry_date" := DateValue(received.value + ExpiryDays)] else data
  }

  /**
    * With a receive date the expiry is set thirty days later; without one
    * (absent or empty) the data is returned untouched; no key other than
    * `expiry_date` is added, removed or changed.
    */
  lemma CleanShape(data: map<string, Value>)
    requires WellTyped(data)
    ensures DateOf(data, "received_date").Some? ==>
      "expiry_date" in CleanRule(data) && CleanRule(data)["expiry_date"] == DateValue(DateOf(data, "received_date").value + 30)
    ensures DateOf(data, "received_date").None? ==> CleanRule(data) == data
    ensures forall key :: key != "expiry_date" ==>
      (key in CleanRule(data) <==> key in data) && (key in data ==> CleanRule(data)[key] == data[key])
  {
  }

  /** Cleaning cleaned data again changes nothing. */
  lemma CleanIdempotent(data: map<string, Value>)
    requires WellTyped(data)
    ensures WellTyped(CleanRule(data))
    ensures CleanRule(CleanRule(data)) == CleanRule(data)
  {
  }

  /**
    * The form and the model agree: a record holding the cleaned receive and
    * expiry dates is stored with the expiry the form shows.
    */
  lemma FormAgreesWithSave(data: map<string, Value>, r: Record)
    requires WellTyped(data)
    requires r.receivedDate == DateOf(data, "received_date")
    requires r.expiryDate == DateOf(data, "expiry_date")
    ensures Saved(r).expiryDate == DateOf(CleanRule(data), "expiry_date")
    ensures Saved(r).receivedDate == DateOf(CleanRule(data), "received_date")
  {
  }

  /** A `ServiceRequestForm` after its fields are cleaned. */
  class ServiceRequestForm {
    var cleanedData: map<string, Value>

    constructor (cleanedData: map<string, Value>)
      ensures this.cleanedData == cleanedData
    {
      this.cleanedData := cleanedData;
    }

    /** `clean`: fills in the expiry date in the cleaned data and returns it. */
    method Clean() returns (result: map<string, Value>)
      requires WellTyped(cleanedData)
      modifies this
      ensures cleanedData == CleanRule(old(cleanedData))
      ensures result == cleanedData
    {
      var received := if "received_date" in cleanedData then cleanedData["received_date"] else NoValue;
      if received.DateValue? {
        cleanedData := cleanedData["expiry_date" := DateValue(received.day + ExpiryDays)];
      }
      result := cleanedData;
    }
  }
}

/** The add-courier screen: its form and error state, the required-field
    check `validate`, the per-keystroke `updateField`, and `handleSubmit`,
    which sends the trimmed form to the couriers table's `create`. */
module AddCourier {
  import opened Store
  import opened JsString
  import Couriers
  import Schema

  /** The keys of the screen's `form` object. */
  datatype FormField = SenderName | ReceiverName | ReceiverPhone | PickupAddress | DeliveryAddress | Notes

  /** The messages `validate` records. */
  const SenderNameRequired := "Sender name is required"
  const ReceiverNameRequired := "Receiver name is required"
  const PhoneRequired := "Phone number is required"
  const PickupAddressRequired := "Pickup address is required"
  const DeliveryAddressRequired := "Delivery address is required"

  /** The message `validate` records for a blank field; `notes` is optional
      and has none. */
  function RequiredMessage(f: FormField): Option<string> {
    match f
    case SenderName => Some(SenderNameRequired)
    case ReceiverName => Some(ReceiverNameRequired)
    case ReceiverPhone => Some(PhoneRequired)
    case PickupAddress => Some(PickupAddressRequired)
    case DeliveryAddress => Some(DeliveryAddressRequired)
    case Notes => None
  }

  /** The form object always holds all six keys. */
  predicate Complete(form: map<FormField, string>) {
    forall f :: f in form
  }

  /** A field `validate` reports: required, and blank after trimming. */
  predicate Missing(form: map<FormField, string>, f: FormField)
    requires Complete(form)
  {
    RequiredMessage(f).Some? && Blank(form[f])
  }

  /** Every required field holds something besides white space. */
  predicate Filled(form: map<FormField, string>)
    requires Complete(form)
  {
    !Blank(form[SenderName]) && !Blank(form[ReceiverName]) && !Blank(form[ReceiverPhone])
    && !Blank(form[PickupAddress]) && !Blank(form[DeliveryAddress])
  }

  /** No field is reported exactly when the required ones are filled; notes
      are never reported. */
  lemma {:induction false} NothingMissing(form: map<FormField, string>)
    requires Complete(form)
    ensures (forall f :: !Missing(form, f)) <==> Filled(form)
    ensures !Missing(form, Notes)
  {
    if Filled(form) {
      forall f ensures !Missing(form, f) {
        match f
        case SenderName =>
        case ReceiverName =>
        case ReceiverPhone =>
        case PickupAddress =>
        case DeliveryAddress =>
        case Notes =>
      }
    } else {
      assert Missing(form, SenderName) || Missing(form, ReceiverName) || Missing(form, ReceiverPhone)
             || Missing(form, PickupAddress) || Missing(form, DeliveryAddress);
    }
  }

  /** The object passed to `createCourier`: every field trimmed, notes left
      undefined when they trim to nothing, no expected delivery date. */
  function Payload(form: map<FormField, string>): Couriers.CourierArgs
    requires Complete(form)
  {
    Couriers.CourierArgs(
      Trim(form[SenderName]), Trim(form[ReceiverName]), Trim(form[ReceiverPhone]),
      Trim(form[PickupAddress]), Trim(form[DeliveryAddress]),
      if Trim(form[Notes]) == [] then None else Some(Trim(form[Notes])),
      None)
  }

  /** What a form that passed `validate` sends: five non-empty required fields
      that trimming leaves alone, and notes that are absent exactly when blank
      and otherwise trimmed and non-empty. */
  lemma SubmittedFields(form: map<FormField, string>)
    requires Complete(form) && Filled(form)
    ensures var p := Payload(form);
      && p.senderName != [] && Trim(p.senderName) == p.senderName
      && p.receiverName != [] && Trim(p.receiverName) == p.receiverName
      && p.receiverPhone != [] && Trim(p.receiverPhone) == p.receiverPhone
      && p.pickupAddress != [] && Trim(p.pickupAddress) == p.pickupAddress
      && p.deliveryAddress != [] && Trim(p.deliveryAddress) == p.deliveryAddress
    ensures Payload(form).notes.None? <==> Blank(form[Notes])
    ensures Payload(form).notes.Some? ==>
              Payload(form).notes.value != [] && Trim(Payload(form).notes.value) == Payload(form).notes.value
    ensures Payload(form).expectedDeliveryDate.None?
  {
  }

  class AddCourierScreen {
    var form: map<FormField, string>
    var errors: map<FormField, string>

    ghost predicate Valid()
      reads this
    {
      Complete(form)
    }

    /** The initial state: every input empty, no errors. */
    constructor ()
      ensures Valid() && errors == map[]
      ensures forall f :: form[f] == ""
    {
      form := map[SenderName := "", ReceiverName := "", ReceiverPhone := "",
                  PickupAddress := "", DeliveryAddress := "", Notes := ""];
      errors := map[];
      new;
      forall f ensures f in form {
        match f
        case SenderName =>
        case ReceiverName =>
        case ReceiverPhone =>
        case PickupAddress =>
        case DeliveryAddress =>
        case Notes =>
      }
    }

    /** `updateField`: the one input takes the new text; that field's error,
        when one is shown, is replaced by the empty string; every other input
        and error stays as it was. */
    method UpdateField(field: FormField, value: string)
      requires Valid()
      modifies this
      ensures Valid()
      ensures form == old(form)[field := value]
      ensures errors.Keys == old(errors).Keys
      ensures field in errors ==> errors[field] == ""
      ensures forall f :: f in errors && f != field ==> errors[f] == old(errors)[f]
    {
      form := form[field := value];
      if field in errors && errors[field] != "" {
        errors := errors[field := ""];
      }
    }

    /** `validate`: the error map is replaced by one entry, holding its fixed
        message, for each blank required field, and the result is true exactly
        when every required field is filled. */
    method Validate() returns (ok: bool)
      requires Valid()
      modifies this
      ensures Valid() && form == old(form)
      ensures forall f :: f in errors <==> Missing(form, f)
      ensures forall f :: f in errors ==> RequiredMessage(f) == Some(errors[f])
      ensures ok <==> Filled(form)
    {
      var newErrors: map<FormField, string> := map[];
      if Blank(form[SenderName]) { newErrors := newErrors[SenderName := SenderNameRequired]; }
      if Blank(form[ReceiverName]) { newErrors := newErrors[ReceiverName := ReceiverNameRequired]; }
      if Blank(form[ReceiverPhone]) { newErrors := newErrors[ReceiverPhone := PhoneRequired]; }
      if Blank(form[PickupAddress]) { newErrors := newErrors[PickupAddress := PickupAddressRequired]; }
      if Blank(form[DeliveryAddress]) { newErrors := newErrors[DeliveryAddress := DeliveryAddressRequired]; }
      forall f ensures (f in newErrors <==> Missing(form, f)) && (f in newErrors ==> RequiredMessage(f) == Some(newErrors[f])) {
        match f
        case SenderName =>
        case ReceiverName =>
        case ReceiverPhone =>
        case PickupAddress =>
        case DeliveryAddress =>
        case Notes =>
      }
      NothingMissing(form);
      errors := newErrors;
      ok := |newErrors| == 0;
    }

    /** `handleSubmit`: when `validate` fails nothing is sent and the couriers
        table is untouched; otherwise one courier is created from the trimmed
        form. */
    method HandleSubmit(store: Couriers.CourierStore, now: nat, idClock: nat, randomText: string)
      returns (created: Option<nat>)
      requires Valid() && store.Valid()
      modifies this, store
      ensures Valid() && form == old(form)
      ensures forall f :: f in errors <==> Missing(form, f)
      ensures store.Valid()
      ensures created.None? <==> !Filled(form)
      ensures created.None? ==> store.rows == old(store.rows)
      ensures created.Some? ==>
                created.value !in old(store.rows)
                && store.rows.Keys == old(store.rows).Keys + {created.value}
                && (forall k :: k in old(store.rows) ==> store.rows[k] == old(store.rows)[k])
      ensures created.Some? ==>
                var c := store.rows[created.value];
                && c.senderName == Payload(form).senderName && c.receiverName == Payload(form).receiverName
                && c.receiverPhone == Payload(form).receiverPhone
                && c.pickupAddress == Payload(form).pickupAddress && c.deliveryAddress == Payload(form).deliveryAddress
                && c.notes == Payload(form).notes && c.expectedDeliveryDate.None?
                && c.currentStatus == Schema.Pending && c.createdAt == now && c.updatedAt == now
                && c.trackingId == Couriers.TrackingId(idClock, randomText)
                && c.weight.None? && c.distance.None? && c.price.None?
                && c.paymentStatus.None? && c.assignedTo.None?
    {
      var ok := Validate();
      if !ok {
        return None;
      }
      var id := store.Create(Payload(form), now, idClock, randomText);
      created := Some(id);
    }
  }
}

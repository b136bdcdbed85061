/** The store object at work: any calls, by any customers, through its methods. */
module BookingService {
  import opened BookingTables
  import opened BookingInvariant
  import opened BookingRuns
  import opened BookingStore

  method Perform(store: Store, shop: Shop, call: Call, now: int)
    modifies store
    ensures store.Rows() == Apply(shop, old(store.Rows()), call, now)
  {
    match call
    case StartCall(c, v, s, b) =>
      var _ := store.StartDraft(shop, c, v, s, b, now);
    case ActiveCall(c, v) =>
      var _ := store.GetActiveDraft(c, v, now);
    case DateCall(c, d, date) =>
      var _ := store.SelectDate(shop, c, d, date, now);
    case HoldCall(c, d, i, key) =>
      var _ := store.CreateHold(shop, c, d, i, key, now);
    case ContactCall(c, d, name, phone, note) =>
      var _ := store.UpdateContact(shop, c, d, name, phone, note, now);
    case CurrentHoldCall(c, d) =>
      var _ := store.GetHold(c, d, now);
    case AbandonCall(c, v) =>
      var _ := store.CancelDraft(c, v);
    case ConfirmCall(c, d, key, reference) =>
      var _ := store.Confirm(shop, c, d, key, reference, now);
    case CancelCall(c, b) =>
      var _ := store.CancelBooking(shop, c, b, now);
    case SweepCall(limit) =>
      var _ := store.ExpireHolds(shop, limit, now);
  }

  /** A new store that has served a legal run holds what the run makes of empty tables, and is safe from then on. */
  method Serve(base: Shop, start: int, steps: seq<Step>) returns (store: Store)
    requires Legal(base, start, steps)
    ensures fresh(store) && store.Rows() == Run(EMPTY, steps)
    ensures forall now :: Clock(start, steps) <= now ==> Inv(base, store.Rows(), now)
  {
    hide Legal, Inv, Apply, SameSizes;
    store := new Store();
    for i := 0 to |steps|
      invariant fresh(store) && store.Rows() == Run(EMPTY, steps[..i])
    {
      Perform(store, steps[i].shop, steps[i].call, steps[i].now);
      assert steps[..i + 1][..i] == steps[..i];
    }
    assert steps[..|steps|] == steps;
    forall now | Clock(start, steps) <= now ensures Inv(base, store.Rows(), now) {
      EveryRunIsSafe(base, start, steps, now);
    }
  }
}

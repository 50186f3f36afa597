/**
 * The profile page (Pages/Profile.js): order statistics over the loaded
 * orders, the avatar initial and role badge, and the edit form whose fields
 * are spread over the user on save. Money is integer cents.
 */
module Profile {
  import opened Wrappers
  import opened Text
  import opened Seqs
  import opened Orders
  import opened OrderCard

  /** The user record as the page reads it; every field may be missing. */
  datatype User = User(
    id: Option<string>,
    email: Option<string>,
    full_name: Option<string>,
    phone: Option<string>,
    address: Option<string>,
    role: Option<string>,
    created_date: Option<string>)

  /** `editForm`: starts as `{}`, so each field may be absent. */
  datatype EditForm = EditForm(full_name: Option<string>, phone: Option<string>, address: Option<string>)

  const EmptyForm := EditForm(None, None, None)

  /** A field that JavaScript treats as truthy text: present and non-empty. */
  predicate HasText(field: Option<string>) {
    field.Some? && field.value != ""
  }

  // ---- statistics ----

  /** The "Total Spent" reduce: the sum of every order's displayed total, 0 for no orders. */
  function TotalSpent(orders: seq<Order>): (total: int)
    ensures orders == [] ==> total == 0
    ensures (forall i :: 0 <= i < |orders| ==> OrderTotal(orders[i]) >= 0) ==> total >= 0
  {
    if orders == [] then 0 else TotalSpent(orders[..|orders| - 1]) + OrderTotal(orders[|orders| - 1])
  }

  lemma {:induction false} TotalSpentAppend(a: seq<Order>, b: seq<Order>)
    ensures TotalSpent(a + b) == TotalSpent(a) + TotalSpent(b)
  {
    if b == [] {
      assert a + b == a;
    } else {
      TotalSpentAppend(a, b[..|b| - 1]);
      assert (a + b)[..|a + b| - 1] == a + b[..|b| - 1];
    }
  }

  function SubtotalSum(orders: seq<Order>): int {
    if orders == [] then 0 else SubtotalSum(orders[..|orders| - 1]) + orders[|orders| - 1].total_amount
  }

  function FeeSum(orders: seq<Order>): int {
    if orders == [] then 0 else FeeSum(orders[..|orders| - 1]) + FeeShown(orders[|orders| - 1])
  }

  /** Total spent is every subtotal plus every fee, a missing fee adding nothing. */
  lemma {:induction false} TotalSpentSplits(orders: seq<Order>)
    ensures TotalSpent(orders) == SubtotalSum(orders) + FeeSum(orders)
  {
    if orders != [] {
      TotalSpentSplits(orders[..|orders| - 1]);
    }
  }

  /** When every order total lies in [lo, hi], total spent lies in [n*lo, n*hi]. */
  lemma {:induction false} TotalSpentBounds(orders: seq<Order>, lo: int, hi: int)
    requires forall i :: 0 <= i < |orders| ==> lo <= OrderTotal(orders[i]) <= hi
    ensures |orders| * lo <= TotalSpent(orders) <= |orders| * hi
  {
    if orders != [] {
      var init := orders[..|orders| - 1];
      assert forall i :: 0 <= i < |init| ==> init[i] == orders[i];
      TotalSpentBounds(init, lo, hi);
      BoundsStep(|init|, TotalSpent(init), OrderTotal(orders[|init|]), lo, hi);
    }
  }

  /** Adding one value in [lo, hi] to a sum of `n` such values gives a sum of `n + 1` of them. */
  lemma BoundsStep(n: int, sum: int, x: int, lo: int, hi: int)
    requires n * lo <= sum <= n * hi && lo <= x <= hi
    ensures (n + 1) * lo <= sum + x <= (n + 1) * hi
  {
    assert (n + 1) * lo == n * lo + lo;
    assert (n + 1) * hi == n * hi + hi;
  }

  /** The "Avg Order" figure: total spent over the number of orders, and 0 without dividing when there are none. */
  function AverageOrderValue(orders: seq<Order>): (avg: real)
    ensures |orders| == 0 ==> avg == 0.0
    ensures |orders| > 0 ==> avg * (|orders| as real) == TotalSpent(orders) as real
  {
    if |orders| > 0 then TotalSpent(orders) as real / (|orders| as real) else 0.0
  }

  /** The average lies between the smallest and the largest order total. */
  lemma AverageBetween(orders: seq<Order>, lo: int, hi: int)
    requires |orders| > 0
    requires forall i :: 0 <= i < |orders| ==> lo <= OrderTotal(orders[i]) <= hi
    ensures lo as real <= AverageOrderValue(orders) <= hi as real
  {
    TotalSpentBounds(orders, lo, hi);
    QuotientBetween(TotalSpent(orders), |orders|, AverageOrderValue(orders), lo, hi);
  }

  /** A quotient `avg = total / m` of a total between `m*lo` and `m*hi` lies between `lo` and `hi`. */
  lemma QuotientBetween(total: int, m: int, avg: real, lo: int, hi: int)
    requires m > 0 && m * lo <= total <= m * hi
    requires avg * (m as real) == total as real
    ensures lo as real <= avg <= hi as real
  {
    var n := m as real;
    ProductAsReal(m, lo);
    ProductAsReal(m, hi);
    assert n * (lo as real) <= total as real <= n * (hi as real);
    ScaledBetween(avg, n, lo as real, hi as real);
  }

  /** Converting a product of integers to a real multiplies the converted factors. */
  lemma ProductAsReal(a: int, b: int)
    ensures (a * b) as real == (a as real) * (b as real)
  {
  }

  /** Dividing bounds by a positive count keeps them. */
  lemma ScaledBetween(a: real, n: real, lo: real, hi: real)
    requires n > 0.0 && n * lo <= a * n <= n * hi
    ensures lo <= a <= hi
  {
  }

  /** The statistics card. */
  datatype Stats = Stats(totalOrders: nat, totalSpent: int, average: real)

  function Statistics(orders: seq<Order>): (s: Stats)
    ensures s.totalOrders == |orders|
    ensures s.totalOrders == 0 ==> s.totalSpent == 0 && s.average == 0.0
    ensures s.totalOrders > 0 ==> s.average * (s.totalOrders as real) == s.totalSpent as real
  {
    Stats(|orders|, TotalSpent(orders), AverageOrderValue(orders))
  }

  /** `orders.slice(0, 3)`: the recent-orders list; it is empty, and "No orders yet" shows, exactly when there are no orders. */
  function RecentOrders(orders: seq<Order>): (recent: seq<Order>)
    ensures recent <= orders
    ensures |recent| == Min(3, |orders|)
    ensures recent == [] <==> orders == []
  {
    Take(orders, 3)
  }

  // ---- header ----

  /** `user?.full_name?.charAt(0) || user?.email?.charAt(0) || "U"`. */
  function AvatarInitial(user: Option<User>): (initial: string)
    ensures |initial| == 1
    ensures user.Some? && HasText(user.value.full_name) ==> initial == [user.value.full_name.value[0]]
    ensures user.Some? && !HasText(user.value.full_name) && HasText(user.value.email) ==>
      initial == [user.value.email.value[0]]
    ensures (user.None? || (!HasText(user.value.full_name) && !HasText(user.value.email))) ==> initial == "U"
  {
    var fromName := if user.Some? && user.value.full_name.Some? then CharAt0(user.value.full_name.value) else "";
    var fromEmail := if user.Some? && user.value.email.Some? then CharAt0(user.value.email.value) else "";
    if fromName != "" then fromName else if fromEmail != "" then fromEmail else "U"
  }

  /** `user?.full_name || "User"`, the heading under the avatar. */
  function DisplayName(user: Option<User>): (name: string)
    ensures name != ""
    ensures user.Some? && HasText(user.value.full_name) ==> name == user.value.full_name.value
    ensures !(user.Some? && HasText(user.value.full_name)) ==> name == "User"
  {
    if user.Some? && HasText(user.value.full_name) then user.value.full_name.value else "User"
  }

  /** `value || "Not provided"`, for the phone and address lines. */
  function OrNotProvided(field: Option<string>): (shown: string)
    ensures shown != ""
    ensures HasText(field) <==> shown == field.GetOr("")
    ensures !HasText(field) ==> shown == "Not provided"
  {
    if HasText(field) then field.value else "Not provided"
  }

  /** `user?.role === "admin" ? "Admin" : "Customer"`. */
  function RoleBadge(user: Option<User>): (badge: string)
    ensures badge == "Admin" <==> user.Some? && user.value.role == Some("admin")
    ensures badge != "Admin" ==> badge == "Customer"
  {
    if user.Some? && user.value.role == Some("admin") then "Admin" else "Customer"
  }

  // ---- editing ----

  /** The form filled in by `loadUserData`: each field as loaded, or "" when missing or empty. */
  function InitialForm(u: User): (f: EditForm)
    ensures f.full_name.Some? && f.phone.Some? && f.address.Some?
    ensures HasText(u.full_name) ==> f.full_name == u.full_name
    ensures HasText(u.phone) ==> f.phone == u.phone
    ensures HasText(u.address) ==> f.address == u.address
    ensures !HasText(u.full_name) ==> f.full_name == Some("")
    ensures !HasText(u.phone) ==> f.phone == Some("")
    ensures !HasText(u.address) ==> f.address == Some("")
  {
    EditForm(Some(u.full_name.GetOr("")), Some(u.phone.GetOr("")), Some(u.address.GetOr("")))
  }

  /** A form field overrides the user's field only when the form has it, as object spread does. */
  function Override(formField: Option<string>, userField: Option<string>): Option<string> {
    if formField.Some? then formField else userField
  }

  /** `{ ...prev, ...editForm }`; a missing user spreads as nothing. */
  function Merge(prev: Option<User>, f: EditForm): (u: User)
    ensures f.full_name.Some? ==> u.full_name == f.full_name
    ensures f.phone.Some? ==> u.phone == f.phone
    ensures f.address.Some? ==> u.address == f.address
    ensures prev.Some? ==>
      && (f.full_name.None? ==> u.full_name == prev.value.full_name)
      && (f.phone.None? ==> u.phone == prev.value.phone)
      && (f.address.None? ==> u.address == prev.value.address)
      && u.id == prev.value.id && u.email == prev.value.email && u.role == prev.value.role
      && u.created_date == prev.value.created_date
    ensures prev.None? ==> u.id.None? && u.email.None? && u.role.None? && u.created_date.None?
  {
    var base := if prev.Some? then prev.value else User(None, None, None, None, None, None, None);
    base.(
      full_name := Override(f.full_name, base.full_name),
      phone := Override(f.phone, base.phone),
      address := Override(f.address, base.address))
  }

  /** Saving the same form twice is the same as saving it once. */
  lemma MergeIdempotent(prev: Option<User>, f: EditForm)
    ensures Merge(Some(Merge(prev, f)), f) == Merge(prev, f)
  {
  }

  /** Saving the form as loaded changes nothing but turning missing name, phone or address into "". */
  lemma SaveUnedited(u: User)
    ensures Merge(Some(u), InitialForm(u)) ==
      u.(full_name := Some(u.full_name.GetOr("")), phone := Some(u.phone.GetOr("")), address := Some(u.address.GetOr("")))
    ensures u.full_name.Some? && u.phone.Some? && u.address.Some? ==> Merge(Some(u), InitialForm(u)) == u
  {
  }

  /** The three inputs of the edit form. */
  datatype Field = FullName | Phone | Address

  /** `setEditForm(prev => ({ ...prev, [field]: value }))`. */
  function WithField(f: EditForm, field: Field, value: string): (g: EditForm)
    ensures field == FullName ==> g == f.(full_name := Some(value))
    ensures field == Phone ==> g == f.(phone := Some(value))
    ensures field == Address ==> g == f.(address := Some(value))
  {
    match field
    case FullName => f.(full_name := Some(value))
    case Phone => f.(phone := Some(value))
    case Address => f.(address := Some(value))
  }

  /** An edited field is what a later save writes into the user. */
  lemma EditedFieldIsSaved(prev: Option<User>, f: EditForm, value: string)
    ensures Merge(prev, WithField(f, FullName, value)).full_name == Some(value)
    ensures Merge(prev, WithField(f, Phone, value)).phone == Some(value)
    ensures Merge(prev, WithField(f, Address, value)).address == Some(value)
  {
  }

  /** The page state: `user`, `orders`, `isEditing` and `editForm`. */
  class ProfilePage {
    var user: Option<User>
    var orders: seq<Order>
    var isEditing: bool
    var editForm: EditForm

    constructor ()
      ensures user.None? && orders == [] && !isEditing && editForm == EmptyForm
    {
      user, orders, isEditing, editForm := None, [], false, EmptyForm;
    }

    /**
     * `loadUserData` once `User.me()` gave `me` (None: it failed) and
     * `Order.filter(...)` gave `userOrders` (None: it failed).
     */
    method LoadUserData(me: Option<User>, userOrders: Option<seq<Order>>)
      modifies this
      ensures me.None? ==> user == old(user) && editForm == old(editForm) && orders == old(orders)
      ensures me.Some? ==> user == me && editForm == InitialForm(me.value)
      ensures me.Some? && userOrders.Some? ==> orders == userOrders.value
      ensures me.Some? && userOrders.None? ==> orders == old(orders)
      ensures isEditing == old(isEditing)
    {
      if me.Some? {
        user := me;
        editForm := InitialForm(me.value);
        if userOrders.Some? {
          orders := userOrders.value;
        }
      }
    }

    /** The "Edit Profile" button. */
    method StartEditing()
      modifies this
      ensures isEditing
      ensures user == old(user) && orders == old(orders) && editForm == old(editForm)
    {
      isEditing := true;
    }

    /** "Cancel" leaves editing but keeps what was typed in the form. */
    method CancelEditing()
      modifies this
      ensures !isEditing
      ensures user == old(user) && orders == old(orders) && editForm == old(editForm)
    {
      isEditing := false;
    }

    /** Typing into one input. */
    method EditField(field: Field, value: string)
      modifies this
      ensures editForm == WithField(old(editForm), field, value)
      ensures user == old(user) && orders == old(orders) && isEditing == old(isEditing)
    {
      editForm := WithField(editForm, field, value);
    }

    /** `handleSave` once `updateMyUserData` has succeeded (`saved`) or thrown. */
    method HandleSave(saved: bool)
      modifies this
      ensures saved ==> user == Some(Merge(old(user), old(editForm))) && !isEditing
      ensures !saved ==> user == old(user) && isEditing == old(isEditing)
      ensures orders == old(orders) && editForm == old(editForm)
    {
      if saved {
        user := Some(Merge(user, editForm));
        isEditing := false;
      }
    }
  }
}

/**
 * The business account record (models/BusinessAccount.js): a lead or a
 * customer, with its source, temperature and status enumerations, the
 * required contact and address fields, and the follow-up and note lists.
 */
module BusinessAccountModel {
  import opened Wrappers
  import opened Table
  import opened SubDocuments

  /** 'Direct', 'socialmedia', 'online', 'client', 'tradefair', 'Other'. */
  datatype SourceType = Direct | SocialMedia | Online | Client | TradeFair | Other

  /** The `type` field. */
  datatype Temperature = Hot | Warm | Cold

  datatype AccountStatus = Active | Inactive | Pipeline | Closed | Customer | Quotations

  /**
   * A stored account. `details` holds the optional plain fields
   * (gstNumber, phoneNumber, addressLine2, addressLine3, landmark, website).
   */
  datatype BusinessAccount = BusinessAccount(
    businessName: Option<string>,
    sourceType: SourceType,
    contactName: Option<string>,
    email: Option<string>,
    mobileNumber: Option<string>,
    followUps: seq<FollowUp>,
    addressLine1: Option<string>,
    city: Option<string>,
    pincode: Option<real>,
    state: Option<string>,
    country: Option<string>,
    kind: Option<Temperature>,
    notes: seq<Note>,
    assignedTo: Option<Id>,
    status: AccountStatus,
    isCustomer: bool,
    selectedProduct: Option<Id>,
    details: map<string, Scalar>)

  datatype AccountBody = AccountBody(
    businessName: Option<string>,
    sourceType: Option<SourceType>,
    contactName: Option<string>,
    email: Option<string>,
    mobileNumber: Option<string>,
    followUps: Option<seq<FollowUp>>,
    addressLine1: Option<string>,
    city: Option<string>,
    pincode: Option<real>,
    state: Option<string>,
    country: Option<string>,
    kind: Option<Temperature>,
    notes: Option<seq<Note>>,
    assignedTo: Option<Id>,
    status: Option<AccountStatus>,
    isCustomer: Option<bool>,
    selectedProduct: Option<Id>,
    details: map<string, Scalar>)

  const EmptyBody: AccountBody := AccountBody(None, None, None, None, None, None, None, None, None,
    None, None, None, None, None, None, None, None, map[])

  /** A required string: present and not empty. */
  predicate Given(s: Option<string>) {
    s.Some? && s.value != ""
  }

  /** What `save()` validates: the nine required fields, the temperature, and every follow-up. */
  predicate WellFormed(a: BusinessAccount) {
    && Given(a.businessName) && Given(a.contactName) && Given(a.email) && Given(a.mobileNumber)
    && Given(a.addressLine1) && Given(a.city) && a.pincode.Some? && Given(a.state) && Given(a.country)
    && a.kind.Some?
    && forall k :: 0 <= k < |a.followUps| ==> FollowUpWellFormed(a.followUps[k])
  }

  /** `new BusinessAccount(body)`: the body's fields, and the schema defaults for the absent ones. */
  function FromBody(b: AccountBody): BusinessAccount {
    BusinessAccount(b.businessName, b.sourceType.GetOr(Other), b.contactName, b.email, b.mobileNumber,
      b.followUps.GetOr([]), b.addressLine1, b.city, b.pincode, b.state, b.country, b.kind,
      b.notes.GetOr([]), b.assignedTo, b.status.GetOr(Active), b.isCustomer.GetOr(false),
      b.selectedProduct, b.details)
  }

  /** A new account is an active lead from an "Other" source, unassigned, with no product, unless the body says otherwise. */
  lemma Defaults()
    ensures var a := FromBody(EmptyBody);
      && a.sourceType == Other && a.status == Active && !a.isCustomer
      && a.assignedTo.None? && a.selectedProduct.None?
      && a.followUps == [] && a.notes == [] && !WellFormed(a)
  {
  }

  /** The customer flag is whatever the body sets, independently of the status the body sets. */
  lemma CustomerFlagIndependent(b: AccountBody, s: AccountStatus)
    ensures FromBody(b.(status := Some(s))).isCustomer == FromBody(b).isCustomer
    ensures FromBody(b.(status := Some(s))).status == s
  {
  }
}

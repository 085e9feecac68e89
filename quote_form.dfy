/** The quote request form's validation rules, as a pure validator from the
    form's values to the set of fields that fail. The e-mail format and the
    current time are parameters of the validator. */
module QuoteFormRules {
  import opened Wrappers

  datatype FieldName = Name | Email | Phone | ProductName | Quantity | Description | DeliveryDate

  /** The form's number input: a number, or something that is not one. */
  datatype NumberInput = Num(value: real) | NotANumber

  /** The form's values; a delivery date is a point in time, `None` for
      `null`. */
  datatype QuoteFormValues = QuoteFormValues(
    name: string,
    email: string,
    phone: string,
    productName: string,
    quantity: NumberInput,
    description: string,
    deliveryDate: Option<int>)

  const InitialValues := QuoteFormValues("", "", "", "", Num(1.0), "", None)

  const MinPhoneDigits := 10
  const MaxPhoneDigits := 15
  const MaxDescription := 500

  predicate IsDigit(c: char) {
    '0' <= c <= '9'
  }

  /** `/^[0-9]{10,15}$/` run as its automaton: read digits left to right,
      counting them, and accept at the end when the count is in range. */
  function MatchDigitRun(s: string, count: nat): bool
    decreases |s|
  {
    if s == [] then MinPhoneDigits <= count <= MaxPhoneDigits
    else IsDigit(s[0]) && count < MaxPhoneDigits && MatchDigitRun(s[1..], count + 1)
  }

  predicate PhoneMatches(phone: string) {
    MatchDigitRun(phone, 0)
  }

  /** The phone pattern accepts exactly the strings of 10 to 15 ASCII
      digits. */
  lemma PhoneRule(phone: string)
    ensures PhoneMatches(phone) <==>
      MinPhoneDigits <= |phone| <= MaxPhoneDigits && forall i :: 0 <= i < |phone| ==> IsDigit(phone[i])
  {
    DigitRun(phone, 0);
  }

  lemma {:induction false} DigitRun(s: string, count: nat)
    ensures MatchDigitRun(s, count) <==>
      MinPhoneDigits <= count + |s| <= MaxPhoneDigits && forall i :: 0 <= i < |s| ==> IsDigit(s[i])
    decreases |s|
  {
    if s != [] {
      DigitRun(s[1..], count + 1);
      assert forall i :: 0 <= i < |s[1..]| ==> s[1..][i] == s[i + 1];
      if forall i :: 0 <= i < |s| ==> IsDigit(s[i]) {
        assert IsDigit(s[0]);
      }
      if IsDigit(s[0]) && forall i :: 0 <= i < |s[1..]| ==> IsDigit(s[1..][i]) {
        forall i | 0 <= i < |s|
          ensures IsDigit(s[i])
        {
          if i > 0 {
            assert s[i] == s[1..][i - 1];
          }
        }
      }
    }
  }

  /** `positive().integer()`, and a number at all. */
  predicate QuantityValid(q: NumberInput) {
    q.Num? && q.value > 0.0 && q.value.Floor as real == q.value
  }

  function Whole(n: nat): real {
    n as real
  }

  /** The valid quantities are exactly the whole numbers from 1 up. */
  lemma QuantityRule(q: NumberInput)
    ensures QuantityValid(q) <==> q.Num? && exists n: nat :: n >= 1 && q.value == Whole(n)
  {
    if QuantityValid(q) {
      var n := q.value.Floor;
      assert n >= 1;
      assert q.value == Whole(n as nat);
    }
  }

  /** The fields that fail validation. A `required` string fails when
      empty; `deliveryDate` is required and no earlier than `now`. */
  function Errors(v: QuoteFormValues, isEmail: string -> bool, now: int): (errs: set<FieldName>)
    ensures Name in errs <==> v.name == ""
    ensures ProductName in errs <==> v.productName == ""
    ensures Email in errs <==> v.email == "" || !isEmail(v.email)
    ensures Description in errs <==> |v.description| > MaxDescription
    ensures DeliveryDate in errs <==> v.deliveryDate.None? || v.deliveryDate.value < now
  {
    (if v.name == "" then {Name} else {})
    + (if v.email == "" || !isEmail(v.email) then {Email} else {})
    + (if v.phone == "" || !PhoneMatches(v.phone) then {Phone} else {})
    + (if v.productName == "" then {ProductName} else {})
    + (if !QuantityValid(v.quantity) then {Quantity} else {})
    + (if |v.description| > MaxDescription then {Description} else {})
    + (if v.deliveryDate.None? || v.deliveryDate.value < now then {DeliveryDate} else {})
  }

  /** The phone fails exactly when it is not 10 to 15 ASCII digits. */
  lemma PhoneErrors(v: QuoteFormValues, isEmail: string -> bool, now: int)
    ensures Phone in Errors(v, isEmail, now) <==>
      !(MinPhoneDigits <= |v.phone| <= MaxPhoneDigits && forall i :: 0 <= i < |v.phone| ==> IsDigit(v.phone[i]))
  {
    PhoneRule(v.phone);
  }

  /** The quantity fails exactly when it is not a whole number from 1 up. */
  lemma QuantityErrors(v: QuoteFormValues, isEmail: string -> bool, now: int)
    ensures Quantity in Errors(v, isEmail, now) <==>
      !(v.quantity.Num? && exists n: nat :: n >= 1 && v.quantity.value == Whole(n))
  {
    QuantityRule(v.quantity);
  }

  /** The untouched form fails on name, e-mail, phone, product name and
      delivery date, and passes on quantity and description. */
  lemma InitialErrors(isEmail: string -> bool, now: int)
    ensures Errors(InitialValues, isEmail, now) == {Name, Email, Phone, ProductName, DeliveryDate}
  {
    assert QuantityValid(Num(1.0)) by {
      assert (1.0).Floor == 1;
    }
  }
}

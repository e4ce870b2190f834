/**
  One user's ledger walked through a wage, a payment, an edit, a deletion
  and a rejected type, with the balance after each step.
 */
module Scenarios {
  import opened Models
  import opened Schemas
  import opened Crud

  const Empty: Ledger := Ledger(map[], map[], 1, 1)
  const Ivan: UserBase := UserBaseDefault(1_234_567_890, "Ivan", "Petrov", "password")

  /**
    Sign up with the default balance; add a wage of 100 and a payment of 40;
    raise the wage to 150; delete the payment; try a "refund". The balances
    read 0, 100, 60, 110 (60 - 100 + 150) and 150, and the refund is refused
    with ValueError and no change.
   */
  method Walkthrough() returns (balances: seq<real>, refused: Exc, kept: bool)
    ensures balances == [0.0, 100.0, 60.0, 110.0, 150.0]
    ensures refused == ValueError && kept
  {
    PhoneLengthOkIff(Ivan.phone);
    var signup := CreateUser(Empty, Ivan);
    var u := signup.value;
    var l := signup.state;
    balances := [l.users[u].balance];

    var wage := CreateOperation(l, OperationCreate(100.0, Wage, u, 10));
    l := wage.state;
    balances := balances + [l.users[u].balance];

    var payment := CreateOperation(l, OperationCreate(40.0, Payment, u, 11));
    l := payment.state;
    balances := balances + [l.users[u].balance];

    var raised := UpdateOperation(l, wage.value, OperationUpdate(150.0, Wage, 10));
    l := raised.state;
    balances := balances + [l.users[u].balance];

    var dropped := DeleteOperation(l, payment.value);
    l := dropped.state;
    balances := balances + [l.users[u].balance];

    var refund := CreateOperation(l, OperationCreate(10.0, "refund", u, 12));
    refused := refund.exc;
    kept := refund.state == l;
  }
}

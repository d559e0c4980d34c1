/** Rows of the service's tables: services/api/core/domain.go, failure_reasons.go and the event
    vocabulary of audit.go. Times are seconds; `updated_at` columns are not modelled. */
module Domain {
  import opened Wrappers
  import Decimal

  datatype Status = Pending | Approved | Executing | Submitted | Confirmed | Failed | Expired | Rejected

  datatype Reason =
    | PolicyDenied | IntentExpired | SimulationFailed | SigningFailed | RejectedByUser | SubmissionFailed
    | ConfirmationTimeout | Reconciliation

  datatype Intent = Intent(
    id: string,
    tenantId: string,
    walletId: string,
    destination: string,
    token: string,
    amount: string,
    chain: string,
    nonce: string,
    creator: string,
    approvers: seq<string>,
    expiry: int,
    status: Status,
    failureReason: Option<Reason>,
    txSignature: string,
    createdAt: int,
    approvedAt: Option<int>,
    executedAt: Option<int>,
    confirmedAt: Option<int>
  )

  const INTENT_LIFETIME: int := 3600

  function NewIntent(id: string, nonce: string, tenantId: string, walletId: string, destination: string,
                     token: string, chain: string, creator: string, amount: int, now: int): Intent {
    Intent(id, tenantId, walletId, destination, token, Decimal.AmountToString(amount), chain, nonce, creator, [],
           now + INTENT_LIFETIME, Pending, None, "", now, None, None, None)
  }

  /** The columns fixed when the intent is created: the row with every lifecycle column reset. */
  function Core(i: Intent): Intent {
    i.(status := Pending, failureReason := None, txSignature := "", approvedAt := None, executedAt := None,
       confirmedAt := None)
  }

  const APPROVAL_LIMIT: int := 100000

  /** The fields that the submitted bytes are computed from, besides the clock. */
  datatype Payload = Payload(walletId: string, token: string, amount: string, destination: string, blockhash: string)

  datatype TxStatus = TxSubmitted | TxConfirmed

  datatype Transaction = Transaction(
    id: string,
    intentId: string,
    tenantId: string,
    walletId: string,
    payload: Payload,
    status: TxStatus,
    submittedAt: int,
    confirmedAt: Option<int>,
    confirmSignature: string
  )

  datatype Action =
    | IntentCreated | IntentApproved | IntentPolicyDenied | IntentZkDenied | IntentExecuting | IntentSimulated
    | IntentSigned | IntentSubmittedOnChain | IntentConfirmed | IntentFailed | IntentExpiredEvent | IntentRejected

  datatype Outcome = Success | Denied | Failure | SimulationDenied

  datatype AuditEvent = AuditEvent(tenantId: string, actor: string, action: Action, intentId: string,
                                   requestId: string, outcome: Outcome)

  datatype Wallet = Wallet(tenantId: string, dailyLimit: int)
}

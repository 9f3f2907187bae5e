/** The Agreement records shared by agreement validation and billing. */
module AgreementTypes {
  import opened Text
  import opened Amounts

  datatype BillingTerms = BillingTerms(
    billingKind: string, firstSequence: nat, recurrenceStart: nat, recurrenceEnd: nat, recurrenceCount: nat,
    recurrenceInterval: nat, maximumAggregate: AgreementAmount, cancellationCutoffPolicy: string)

  datatype Obligation = Obligation(
    obligationId: string, kind: string, obligorAgentId: string, beneficiaryAgentId: string, dependsOn: seq<string>,
    subjectContentType: string, subject: string, attachmentDigests: seq<string>, amount: Option<AgreementAmount>,
    notBefore: nat, dueAt: nat, expiresAt: nat, acceptanceRequirements: seq<string>, confidentialityPolicy: string,
    cancellationPolicy: string, disputePolicy: string, billing: Option<BillingTerms>, settlementAdapterUri: string,
    settlementParameters: string, predicateIds: seq<string>, requiredExtensions: seq<string>,
    optionalExtensions: seq<string>)

  /** `validateBillingTerms`. */
  predicate ValidBillingTerms(terms: BillingTerms, amount: AgreementAmount) {
    && (if terms.billingKind == "periodic" then
          && terms.recurrenceStart != 0 && terms.recurrenceEnd > terms.recurrenceStart
          && 0 < terms.recurrenceCount <= 10_000 && terms.recurrenceInterval != 0
        else
          && terms.billingKind in {"one_time", "deposit", "milestone", "installment", "accumulated"}
          && terms.recurrenceStart == 0 && terms.recurrenceEnd == 0 && terms.recurrenceCount == 0
          && terms.recurrenceInterval == 0)
    && terms.firstSequence != 0 && BoundedIdentifier(terms.cancellationCutoffPolicy, 256)
    && ValidAmount(terms.maximumAggregate) && SameAsset(terms.maximumAggregate, amount)
  }
}

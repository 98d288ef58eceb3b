/**
 * The rows the per-county indicators work on: a cleaned loan joined with its
 * county's AMI bands for the loan's year. The join itself is not part of this
 * model; this is its result.
 */
module JoinedLoans {
  datatype JoinedLoan = JoinedLoan(
    countyName: string, loanAmount: real, applicantIncome: real, ami80: real, ami100: real, ami120: real)
}

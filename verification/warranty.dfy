/** The warranty claim form (WarrantyClaimForm.tsx): three required fields and an optional attachment name. */
module Warranty {

  const FillRequired: string := "Please fill out all required fields."

  datatype ClaimForm = ClaimForm(productName: string, purchaseDate: string, issueDescription: string, fileName: string)

  datatype Claim = Claim(productName: string, purchaseDate: string, issueDescription: string, fileName: string)

  datatype Outcome = Emit(claim: Claim) | Alert(message: string)

  /** `handleFileChange`: the first chosen file's name, or "" when nothing is chosen. */
  function ChooseFiles(f: ClaimForm, names: seq<string>): (g: ClaimForm)
    ensures |names| > 0 ==> g.fileName == names[0]
    ensures |names| == 0 ==> g.fileName == ""
    ensures g.productName == f.productName && g.purchaseDate == f.purchaseDate
      && g.issueDescription == f.issueDescription
  {
    f.(fileName := if |names| > 0 then names[0] else "")
  }

  /** `handleSubmit`: product, date and description are required; the file name is passed along as it is. */
  function Submit(f: ClaimForm): (r: Outcome)
    ensures r.Emit? <==> f.productName != "" && f.purchaseDate != "" && f.issueDescription != ""
    ensures r.Emit? ==> r.claim == Claim(f.productName, f.purchaseDate, f.issueDescription, f.fileName)
    ensures r.Alert? ==> r.message == FillRequired
  {
    if f.productName != "" && f.purchaseDate != "" && f.issueDescription != ""
    then Emit(Claim(f.productName, f.purchaseDate, f.issueDescription, f.fileName))
    else Alert(FillRequired)
  }

  /** Whether a file is attached never decides whether the claim goes out. */
  lemma AttachmentOptional(f: ClaimForm, names: seq<string>)
    ensures Submit(ChooseFiles(f, names)).Emit? == Submit(f).Emit?
  {
  }
}

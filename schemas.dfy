/** The form schemas: each schema is a function from the submitted form to the
    issues it reports, one per failed check and in the order the checks are
    declared, each issue carrying the field it belongs to. A form is accepted
    exactly when it has no issue. The inputs are well-typed records, so every
    check of every field runs, as the schema library runs them when no field
    has the wrong type. */
module Schemas {
  import opened Text
  import Utils
  import Constants

  datatype Field =
    | Email | Password | Name | ConfirmPassword | AgreeTerms
    | Title | Description | Budget | Skills | Category
    | EstimatedHours | BidAmount | Message
    | Rating | Comment
    | CurrentPassword | NewPassword

  datatype Issue = Issue(path: Field, message: string)

  /** One check: no issue when it holds, one issue on `path` otherwise. */
  function Check(path: Field, holds: bool, message: string): (r: seq<Issue>)
    ensures holds <==> r == []
    ensures !holds ==> r == [Issue(path, message)]
  {
    if holds then [] else [Issue(path, message)]
  }

  /** The fields that have at least one issue. */
  function Paths(issues: seq<Issue>): set<Field> {
    if issues == [] then {} else {issues[0].path} + Paths(issues[1..])
  }

  lemma {:induction false} PathsConcat(a: seq<Issue>, b: seq<Issue>)
    ensures Paths(a + b) == Paths(a) + Paths(b)
  {
    if a != [] {
      assert (a + b)[1..] == a[1..] + b;
      PathsConcat(a[1..], b);
    } else {
      assert a + b == b;
    }
  }

  lemma PathsCheck(path: Field, holds: bool, message: string)
    ensures Paths(Check(path, holds, message)) <= {path}
    ensures path in Paths(Check(path, holds, message)) <==> !holds
  {
    if !holds {
      assert Check(path, holds, message)[0].path == path;
    }
  }

  /** A lower and an upper bound on one field, reported separately. */
  function Bounds(path: Field, aboveMin: bool, belowMax: bool, minMessage: string, maxMessage: string): (r: seq<Issue>)
    ensures r == [] <==> aboveMin && belowMax
    ensures Paths(r) <= {path}
    ensures path in Paths(r) <==> !(aboveMin && belowMax)
  {
    var a := Check(path, aboveMin, minMessage);
    var b := Check(path, belowMax, maxMessage);
    PathsCheck(path, aboveMin, minMessage);
    PathsCheck(path, belowMax, maxMessage);
    PathsConcat(a, b);
    a + b
  }

  // ---------- Login ----------

  datatype LoginForm = LoginForm(email: string, password: string)

  function LoginIssues(f: LoginForm): (r: seq<Issue>)
    ensures r == [] <==> |f.email| >= 1 && |f.password| >= 6
  {
    var a := Check(Email, |f.email| >= 1, "Email is required");
    var b := Check(Password, |f.password| >= 6, "Password must be at least 6 characters");
    a + b
  }

  // ---------- Passwords ----------

  /** The password rules (`min(8)`, `/[a-z]/`, `/[0-9]/`), all of them reported. */
  predicate StrongPassword(p: string) {
    |p| >= 8 && Utils.HasLower(p) && Utils.HasDigit(p)
  }

  /** The schema's password rules are the ones `validatePassword` enforces. */
  lemma StrongPasswordIsValidPassword(p: string)
    ensures StrongPassword(p) <==> Utils.ValidatePassword(p).valid
  {
  }

  function PasswordIssues(path: Field, p: string): (r: seq<Issue>)
    ensures r == [] <==> StrongPassword(p)
    ensures Paths(r) <= {path}
    ensures path in Paths(r) <==> !StrongPassword(p)
  {
    var a := Check(path, |p| >= 8, Utils.PasswordTooShort);
    var b := Check(path, Utils.HasLower(p), Utils.PasswordNeedsLower);
    var c := Check(path, Utils.HasDigit(p), Utils.PasswordNeedsDigit);
    PathsCheck(path, |p| >= 8, Utils.PasswordTooShort);
    PathsCheck(path, Utils.HasLower(p), Utils.PasswordNeedsLower);
    PathsCheck(path, Utils.HasDigit(p), Utils.PasswordNeedsDigit);
    PathsConcat(a, b);
    PathsConcat(a + b, c);
    a + b + c
  }

  // ---------- Register ----------

  datatype RegisterForm = RegisterForm(name: string, email: string, password: string,
                                       confirmPassword: string, agreeTerms: bool)

  const PasswordsDoNotMatch := "Passwords do not match"

  function RegisterIssues(f: RegisterForm): (r: seq<Issue>)
    ensures r == [] <==>
      2 <= |f.name| <= 50 && |f.email| >= 1 && StrongPassword(f.password) &&
      f.agreeTerms && f.password == f.confirmPassword
    ensures ConfirmPassword in Paths(r) <==> f.password != f.confirmPassword
  {
    var a := Check(Name, |f.name| >= 2, "Name must be at least 2 characters");
    var b := Check(Name, |f.name| <= 50, "Name must not exceed 50 characters");
    var c := Check(Email, |f.email| >= 1, "Email is required");
    var d := PasswordIssues(Password, f.password);
    var e := Check(AgreeTerms, f.agreeTerms, "You must agree to the terms and conditions");
    var g := Check(ConfirmPassword, f.password == f.confirmPassword, PasswordsDoNotMatch);
    PathsCheck(Name, |f.name| >= 2, "Name must be at least 2 characters");
    PathsCheck(Name, |f.name| <= 50, "Name must not exceed 50 characters");
    PathsCheck(Email, |f.email| >= 1, "Email is required");
    PathsCheck(AgreeTerms, f.agreeTerms, "You must agree to the terms and conditions");
    PathsCheck(ConfirmPassword, f.password == f.confirmPassword, PasswordsDoNotMatch);
    PathsConcat(a, b);
    PathsConcat(a + b, c);
    PathsConcat(a + b + c, d);
    PathsConcat(a + b + c + d, e);
    PathsConcat(a + b + c + d + e, g);
    a + b + c + d + e + g
  }

  // ---------- Change password ----------

  datatype ChangePasswordForm = ChangePasswordForm(currentPassword: string, newPassword: string, confirmPassword: string)

  function ChangePasswordIssues(f: ChangePasswordForm): (r: seq<Issue>)
    ensures r == [] <==>
      |f.currentPassword| >= 1 && StrongPassword(f.newPassword) && f.newPassword == f.confirmPassword
    ensures NewPassword in Paths(r) <==> !StrongPassword(f.newPassword)
    ensures ConfirmPassword in Paths(r) <==> f.newPassword != f.confirmPassword
  {
    var a := Check(CurrentPassword, |f.currentPassword| >= 1, "Current password is required");
    var b := PasswordIssues(NewPassword, f.newPassword);
    var c := Check(ConfirmPassword, f.newPassword == f.confirmPassword, PasswordsDoNotMatch);
    PathsCheck(CurrentPassword, |f.currentPassword| >= 1, "Current password is required");
    PathsCheck(ConfirmPassword, f.newPassword == f.confirmPassword, PasswordsDoNotMatch);
    PathsConcat(a, b);
    PathsConcat(a + b, c);
    a + b + c
  }

  // ---------- Task ----------

  datatype TaskForm = TaskForm(title: string, description: string, budget: int, deadline: string,
                               skills: seq<string>, category: string)

  const TitleTooShort := "Title must be at least " + NatToString(Constants.MinTaskTitleLength) + " characters"
  const TitleTooLong := "Title must not exceed " + NatToString(Constants.MaxTaskTitleLength) + " characters"
  const DescriptionTooShort :=
    "Description must be at least " + NatToString(Constants.MinTaskDescriptionLength) + " characters"
  const DescriptionTooLong :=
    "Description must not exceed " + NatToString(Constants.MaxTaskDescriptionLength) + " characters"
  const BudgetTooLow := "Budget must be at least " + IntToString(Constants.MinTaskBudget) + " TC"
  const BudgetTooHigh := "Budget must not exceed " + IntToString(Constants.MaxTaskBudget) + " TC"
  const SkillsMissing := "At least one skill is required"
  const TooManySkills := "Maximum " + NatToString(Constants.MaxSkillsPerTask) + " skills allowed"

  function TaskIssues(f: TaskForm): (r: seq<Issue>)
    ensures r == [] <==>
      Constants.MinTaskTitleLength <= |f.title| <= Constants.MaxTaskTitleLength &&
      Constants.MinTaskDescriptionLength <= |f.description| <= Constants.MaxTaskDescriptionLength &&
      Utils.IsValidAmount(f.budget, Constants.MinTaskBudget, Constants.MaxTaskBudget) &&
      1 <= |f.skills| <= Constants.MaxSkillsPerTask && |f.category| >= 1
  {
    var a := Bounds(Title, |f.title| >= Constants.MinTaskTitleLength, |f.title| <= Constants.MaxTaskTitleLength,
      TitleTooShort, TitleTooLong);
    var b := Bounds(Description,
      |f.description| >= Constants.MinTaskDescriptionLength, |f.description| <= Constants.MaxTaskDescriptionLength,
      DescriptionTooShort, DescriptionTooLong);
    var c := Bounds(Budget, f.budget >= Constants.MinTaskBudget, f.budget <= Constants.MaxTaskBudget,
      BudgetTooLow, BudgetTooHigh);
    var d := Bounds(Skills, |f.skills| >= 1, |f.skills| <= Constants.MaxSkillsPerTask,
      SkillsMissing, TooManySkills);
    var e := Check(Category, |f.category| >= 1, "Category is required");
    a + b + c + d + e
  }

  // ---------- Proposal ----------

  datatype ProposalForm = ProposalForm(estimatedHours: int, bidAmount: int, message: string)

  function ProposalIssues(f: ProposalForm): (r: seq<Issue>)
    ensures r == [] <==>
      Utils.IsValidAmount(f.estimatedHours, Constants.MinProposalHours, Constants.MaxProposalHours) &&
      Utils.IsValidAmount(f.bidAmount, Constants.MinProposalBid, Constants.MaxProposalBid) &&
      20 <= |f.message| <= 2000
  {
    var minHours := "Estimated hours must be at least " + IntToString(Constants.MinProposalHours);
    var maxHours := "Estimated hours must not exceed " + IntToString(Constants.MaxProposalHours);
    var minBid := "Bid must be at least " + IntToString(Constants.MinProposalBid) + " TC";
    var maxBid := "Bid must not exceed " + IntToString(Constants.MaxProposalBid) + " TC";
    var a := Check(EstimatedHours, f.estimatedHours >= Constants.MinProposalHours, minHours);
    var b := Check(EstimatedHours, f.estimatedHours <= Constants.MaxProposalHours, maxHours);
    var c := Check(BidAmount, f.bidAmount >= Constants.MinProposalBid, minBid);
    var d := Check(BidAmount, f.bidAmount <= Constants.MaxProposalBid, maxBid);
    var e := Check(Message, |f.message| >= 20, "Message must be at least 20 characters");
    var g := Check(Message, |f.message| <= 2000, "Message must not exceed 2000 characters");
    a + b + c + d + e + g
  }

  // ---------- Review ----------

  datatype ReviewForm = ReviewForm(contractId: int, revieweeId: int, rating: int, comment: string)

  function ReviewIssues(f: ReviewForm): (r: seq<Issue>)
    ensures r == [] <==> 1 <= f.rating <= 5 && 10 <= |f.comment| <= Constants.MaxReviewLength
  {
    var maxComment := "Review must not exceed " + NatToString(Constants.MaxReviewLength) + " characters";
    var a := Check(Rating, f.rating >= 1, "Rating is required");
    var b := Check(Rating, f.rating <= 5, "Rating must be between 1 and 5");
    var c := Check(Comment, |f.comment| >= 10, "Review must be at least 10 characters");
    var d := Check(Comment, |f.comment| <= Constants.MaxReviewLength, maxComment);
    a + b + c + d
  }
}

/** The business checks of the customers service (src/customers/customers.service.ts):
    a customer needs a non-blank name, and a non-empty email must look like
    one. */
module CustomerService {
  import opened Common
  import opened Text
  import opened CustomerStore

  /** A character `[^\s@]` accepts. */
  predicate Plain(c: char) {
    !IsWhitespace(c) && c != '@'
  }

  /** A non-empty run of such characters, `[^\s@]+`. */
  ghost predicate PlainRun(s: string) {
    |s| > 0 && forall k :: 0 <= k < |s| ==> Plain(s[k])
  }

  /** s matches `/^[^\s@]+@[^\s@]+\.[^\s@]+$/`: it splits at an '@' at index i
      and a '.' at index j into three runs. */
  ghost predicate MatchesEmailPattern(s: string) {
    exists i, j | 0 < i && i + 1 < j < |s| - 1 ::
      s[i] == '@' && s[j] == '.' && PlainRun(s[..i]) && PlainRun(s[i + 1..j]) && PlainRun(s[j + 1..])
  }

  /** The same condition in words: no whitespace, exactly one '@' with
      something before it, and after it a '.' with something on each side. */
  ghost predicate EmailRules(s: string) {
    && (forall k :: 0 <= k < |s| ==> !IsWhitespace(s[k]))
    && exists i | 0 < i < |s| ::
         && s[i] == '@'
         && (forall k :: 0 <= k < |s| && k != i ==> s[k] != '@')
         && exists j | i + 1 < j < |s| - 1 :: s[j] == '.'
  }

  /** The index of the first c in s, or |s| when there is none. */
  function IndexOf(s: string, c: char): (r: nat)
    ensures r <= |s| && (r < |s| ==> s[r] == c)
    ensures forall k :: 0 <= k < r ==> s[k] != c
  {
    if s == [] || s[0] == c then 0
    else
      var r := IndexOf(s[1..], c);
      assert forall k :: 1 <= k < |s| ==> s[1..][k - 1] == s[k];
      1 + r
  }

  /** `isValidEmail`: the first '@' has something before it, every other
      character is plain, and a '.' sits strictly inside the part after it. */
  function IsValidEmail(s: string): bool {
    var at := IndexOf(s, '@');
    && 0 < at
    && (forall k :: 0 <= k < |s| && k != at ==> Plain(s[k]))
    && at + 2 <= |s| - 1 && '.' in s[at + 2..|s| - 1]
  }

  /** isValidEmail accepts exactly the strings the regular expression matches. */
  lemma IsValidEmailMatchesPattern(s: string)
    ensures IsValidEmail(s) <==> MatchesEmailPattern(s)
  {
    var at := IndexOf(s, '@');
    if IsValidEmail(s) {
      var d := s[at + 2..|s| - 1];
      var m :| 0 <= m < |d| && d[m] == '.';
      var j := at + 2 + m;
      assert s[j] == d[m];
      RunOf(s, 0, at);
      RunOf(s, at + 1, j);
      RunOf(s, j + 1, |s|);
    }
    if MatchesEmailPattern(s) {
      var i, j :| 0 < i && i + 1 < j < |s| - 1 && s[i] == '@' && s[j] == '.'
                  && PlainRun(s[..i]) && PlainRun(s[i + 1..j]) && PlainRun(s[j + 1..]);
      OthersPlain(s, i, j);
      assert at == i;
      assert s[at + 2..|s| - 1][j - at - 2] == s[j];
    }
  }

  /** A stretch of plain characters is a run. */
  lemma RunOf(s: string, lo: int, hi: int)
    requires 0 <= lo < hi <= |s| && forall k :: lo <= k < hi ==> Plain(s[k])
    ensures PlainRun(s[lo..hi])
  {
    forall k | 0 <= k < hi - lo ensures Plain(s[lo..hi][k]) {
      assert s[lo..hi][k] == s[lo + k];
    }
  }

  /** Splitting into three runs leaves every character but the '@' plain. */
  lemma OthersPlain(s: string, i: int, j: int)
    requires 0 < i && i + 1 < j < |s| - 1 && s[j] == '.'
    requires PlainRun(s[..i]) && PlainRun(s[i + 1..j]) && PlainRun(s[j + 1..])
    ensures forall k :: 0 <= k < |s| && k != i ==> Plain(s[k])
  {
    forall k | 0 <= k < |s| && k != i ensures Plain(s[k]) {
      if k < i {
        assert s[k] == s[..i][k];
      } else if k < j {
        assert s[k] == s[i + 1..j][k - i - 1];
      } else if k > j {
        assert s[k] == s[j + 1..][k - j - 1];
      }
    }
  }

  /** isValidEmail holds exactly when the four rules in words hold. */
  lemma IsValidEmailMeansRules(s: string)
    ensures IsValidEmail(s) <==> EmailRules(s)
  {
    var at := IndexOf(s, '@');
    if IsValidEmail(s) {
      var d := s[at + 2..|s| - 1];
      var m :| 0 <= m < |d| && d[m] == '.';
      assert s[at + 2 + m] == '.';
    }
    if EmailRules(s) {
      var i :| 0 < i < |s| && s[i] == '@' && (forall k :: 0 <= k < |s| && k != i ==> s[k] != '@')
               && exists j | i + 1 < j < |s| - 1 :: s[j] == '.';
      var j :| i + 1 < j < |s| - 1 && s[j] == '.';
      assert at == i;
      assert s[at + 2..|s| - 1][j - at - 2] == s[j];
    }
  }

  /** `!data.name || data.name.trim().length === 0`. */
  predicate BlankName(name: string) {
    Trim(name) == []
  }

  /** `data.email && !isValidEmail(data.email)`. */
  predicate BadEmail(email: Option<string>) {
    email.Some? && email.value != "" && !IsValidEmail(email.value)
  }

  /** The guards of createCustomer, in the order they are checked. */
  function CreateCheck(data: NewCustomer): (r: Outcome)
    ensures r.Pass? <==> !Blank(data.name) && !BadEmail(data.email)
    ensures Blank(data.name) ==> r == Fail(CustomerNameRequired)
    ensures r.Fail? && !Blank(data.name) ==> r == Fail(InvalidEmail)
  {
    TrimEmptyIffBlank(data.name);
    if BlankName(data.name) then Fail(CustomerNameRequired)
    else if BadEmail(data.email) then Fail(InvalidEmail)
    else Pass
  }

  /** The guards of updateCustomer: the name only when one is supplied, the
      email only when a non-empty one is supplied. */
  function UpdateCheck(patch: CustomerPatch): (r: Outcome)
    ensures r.Pass? <==> (patch.name.Set? ==> !Blank(patch.name.value))
                         && !(patch.email.Set? && BadEmail(patch.email.value))
    ensures patch.name.Set? && Blank(patch.name.value) ==> r == Fail(CustomerNameRequired)
    ensures r.Fail? && !(patch.name.Set? && Blank(patch.name.value)) ==> r == Fail(InvalidEmail)
  {
    TrimEmptyIffBlank(if patch.name.Set? then patch.name.value else "");
    if patch.name.Set? && BlankName(patch.name.value) then Fail(CustomerNameRequired)
    else if patch.email.Set? && BadEmail(patch.email.value) then Fail(InvalidEmail)
    else Pass
  }

  /** What the service guarantees of a stored customer: a non-empty name,
      and an email that is empty, null or valid. */
  predicate Sound(c: Customer) {
    c.name != [] && !BadEmail(c.email)
  }

  /** A customer created through the service is sound. */
  lemma CreatedIsSound(id: Id, userId: Id, data: NewCustomer)
    requires CreateCheck(data).Pass?
    ensures Sound(NewCustomerRow(id, userId, data))
  {
    TrimEmptyIffBlank(data.name);
  }

  /** An update accepted by the service keeps a sound customer sound. */
  lemma UpdateKeepsSound(c: Customer, patch: CustomerPatch)
    requires Sound(c) && UpdateCheck(patch).Pass?
    ensures Sound(PatchedCustomer(c, patch))
  {
    if patch.name.Set? {
      TrimEmptyIffBlank(patch.name.value);
    }
  }

  /** An empty email is let through, and update stores it as "" where
      create would have stored null. */
  lemma EmptyEmailKeptByUpdate(c: Customer)
    ensures var patch := CustomerPatch(Keep, Set(Some("")), Keep, Keep, Keep);
            UpdateCheck(patch).Pass? && PatchedCustomer(c, patch).email == Some("")
  {
  }

  class CustomersService {
    const repository: CustomersRepository

    constructor (repository: CustomersRepository)
      ensures this.repository == repository
    {
      this.repository := repository;
    }

    /** createCustomer: the guards, then the request forwarded to the repository. */
    method CreateCustomer(userId: Id, data: NewCustomer, id: Id) returns (r: Result<Customer>)
      requires repository.Valid() && id !in repository.rows
      modifies repository
      ensures repository.Valid()
      ensures CreateCheck(data).Fail? ==>
                r == Err(CreateCheck(data).error) && repository.rows == old(repository.rows)
      ensures CreateCheck(data).Pass? ==>
                r == Ok(NewCustomerRow(id, userId, data)) && repository.rows == old(repository.rows)[id := r.value]
    {
      if |Trim(data.name)| == 0 {
        return Err(CustomerNameRequired);
      }
      if data.email.Some? && data.email.value != "" && !IsValidEmail(data.email.value) {
        return Err(InvalidEmail);
      }
      var c := repository.Create(userId, data, id);
      r := Ok(c);
    }

    /** updateCustomer: the guards, then the request forwarded unchanged to
        the repository, which fails when the user owns no such customer. */
    method UpdateCustomer(id: Id, userId: Id, patch: CustomerPatch) returns (r: Result<Customer>)
      requires repository.Valid()
      modifies repository
      ensures repository.Valid()
      ensures UpdateCheck(patch).Fail? ==>
                r == Err(UpdateCheck(patch).error) && repository.rows == old(repository.rows)
      ensures UpdateCheck(patch).Pass? && !OwnsCustomer(old(repository.rows), id, userId) ==>
                r == Err(CustomerMissing) && repository.rows == old(repository.rows)
      ensures UpdateCheck(patch).Pass? && OwnsCustomer(old(repository.rows), id, userId) ==>
                r == Ok(PatchedCustomer(old(repository.rows)[id], patch))
                && repository.rows == old(repository.rows)[id := r.value]
    {
      if patch.name.Set? && |Trim(patch.name.value)| == 0 {
        return Err(CustomerNameRequired);
      }
      if patch.email.Set? && patch.email.value.Some? && patch.email.value.value != ""
         && !IsValidEmail(patch.email.value.value) {
        return Err(InvalidEmail);
      }
      r := repository.Update(id, userId, patch);
    }
  }
}

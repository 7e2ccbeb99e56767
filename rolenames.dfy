/** `RoleName`: the two roles and their parsing from request text. */
module RoleNames {
  import opened Wrappers
  import opened Strings

  datatype RoleName = Manager | Customer {
    /** The Java constant's name. */
    function Name(): string {
      match this
      case Manager => "ROLE_MANAGER"
      case Customer => "ROLE_CUSTOMER"
    }
  }

  /** `RoleName.valueOf`: exact, case-sensitive match of a constant's name. */
  function ValueOf(name: string): (r: Result<RoleName>)
    ensures r.Ok? <==> name in {"ROLE_MANAGER", "ROLE_CUSTOMER"}
    ensures r.Ok? ==> r.value.Name() == name
    ensures r.Err? ==> r.error == IllegalArgument
  {
    if name == "ROLE_MANAGER" then Ok(Manager)
    else if name == "ROLE_CUSTOMER" then Ok(Customer)
    else Err(IllegalArgument)
  }

  /** `RoleName.fromString`: the constant named "ROLE_" + the trimmed,
      upper-cased input. It never yields an empty Optional: an unknown name is
      an IllegalArgumentException. */
  function FromString(value: string): (r: Result<RoleName>)
    ensures r.Ok? <==> Upper(Trim(value)) in {"MANAGER", "CUSTOMER"}
    ensures r.Ok? ==> r.value.Name() == "ROLE_" + Upper(Trim(value))
    ensures r.Err? ==> r.error == IllegalArgument
  {
    var n := Upper(Trim(value));
    PrefixCancels("ROLE_", n, "MANAGER");
    PrefixCancels("ROLE_", n, "CUSTOMER");
    PrefixedNames();
    ValueOf("ROLE_" + n)
  }

  /** The constants' names are their short names behind "ROLE_". */
  lemma PrefixedNames()
    ensures "ROLE_" + "MANAGER" == "ROLE_MANAGER" && "ROLE_" + "CUSTOMER" == "ROLE_CUSTOMER"
  {
  }

  /** Strings with the same prefix are equal exactly when their rests are. */
  lemma {:induction false} PrefixCancels(p: string, a: string, b: string)
    ensures p + a == p + b <==> a == b
  {
    if p + a == p + b {
      assert a == (p + a)[|p|..];
      assert b == (p + b)[|p|..];
    }
  }

  /** The role's name without its "ROLE_" prefix, as clients send it. */
  function ShortName(role: RoleName): (s: string)
    ensures role.Name() == "ROLE_" + s
  {
    match role
    case Manager => "MANAGER"
    case Customer => "CUSTOMER"
  }

  /** Surrounding whitespace does not matter. */
  lemma {:induction false} FromStringIgnoresPadding(value: string)
    ensures FromString(Trim(value)) == FromString(value)
  {
    TrimIdempotent(value);
  }

  /** Letter case does not matter: inputs that upper-case alike parse alike. */
  lemma {:induction false} FromStringIgnoresCase(a: string, b: string)
    requires Upper(a) == Upper(b)
    ensures FromString(a) == FromString(b)
  {
    TrimUpperCommute(a);
    TrimUpperCommute(b);
    UpperIdempotent(Trim(a));
    UpperIdempotent(Trim(b));
  }

  /** Every role parses back from its short name. */
  lemma {:induction false} FromStringShortName(role: RoleName)
    ensures FromString(ShortName(role)) == Ok(role)
  {
    match role
    case Manager => CanonicalParsesPrefixed("MANAGER");
    case Customer => CanonicalParsesPrefixed("CUSTOMER");
  }

  /** A name with nothing to trim or upper-case parses as `valueOf` of the
      prefixed name does. */
  lemma {:induction false} CanonicalParsesPrefixed(s: string)
    requires Canonical(s)
    ensures FromString(s) == ValueOf("ROLE_" + s)
  {
    CanonicalIsFixed(s);
  }

  /** "customer", in lower case, gives the customer role. */
  lemma {:induction false} LowerCaseCustomer()
    ensures FromString("customer") == Ok(Customer)
  {
    var s := "customer";
    TrimFixed(s);
    var u := Upper(s);
    assert u == "CUSTOMER" by {
      assert |u| == 8;
      assert u[0] == 'C' && u[1] == 'U' && u[2] == 'S' && u[3] == 'T';
      assert u[4] == 'O' && u[5] == 'M' && u[6] == 'E' && u[7] == 'R';
    }
    assert FromString(s).value.Name() == Customer.Name();
  }

  /** An input that already carries the prefix is prefixed twice and rejected. */
  lemma {:induction false} PrefixedNameRejected()
    ensures FromString("ROLE_MANAGER") == Err(IllegalArgument)
  {
    var s := "ROLE_MANAGER";
    assert Canonical(s);
    CanonicalIsFixed(s);
    assert |s| == 12;
  }
}

/** `TypeName`: the three car types and their parsing from request text. */
module TypeNames {
  import opened Wrappers
  import opened Strings

  datatype TypeName = Sedan | Suv | Hatchback {
    /** The Java constant's name. */
    function Name(): string {
      match this
      case Sedan => "SEDAN"
      case Suv => "SUV"
      case Hatchback => "HATCHBACK"
    }
  }

  /** `TypeName.valueOf`: exact, case-sensitive match of a constant's name. */
  function ValueOf(name: string): (r: Result<TypeName>)
    ensures r.Ok? <==> name in {"SEDAN", "SUV", "HATCHBACK"}
    ensures r.Ok? ==> r.value.Name() == name
    ensures r.Err? ==> r.error == IllegalArgument
  {
    if name == "SEDAN" then Ok(Sedan)
    else if name == "SUV" then Ok(Suv)
    else if name == "HATCHBACK" then Ok(Hatchback)
    else Err(IllegalArgument)
  }

  /** `TypeName.fromString`: the constant named by the trimmed, upper-cased
      input; never an empty Optional, an unknown name is an
      IllegalArgumentException. */
  function FromString(name: string): (r: Result<TypeName>)
    ensures r.Ok? <==> Upper(Trim(name)) in {"SEDAN", "SUV", "HATCHBACK"}
    ensures r.Ok? ==> r.value.Name() == Upper(Trim(name))
    ensures r.Err? ==> r.error == IllegalArgument
  {
    ValueOf(Upper(Trim(name)))
  }

  /** Every type parses back from its own name. */
  lemma {:induction false} FromStringName(t: TypeName)
    ensures FromString(t.Name()) == Ok(t)
  {
    match t
    case Sedan => CanonicalParsesExactly("SEDAN");
    case Suv => CanonicalParsesExactly("SUV");
    case Hatchback => CanonicalParsesExactly("HATCHBACK");
  }

  /** A name with nothing to trim or upper-case parses as `valueOf` does. */
  lemma {:induction false} CanonicalParsesExactly(s: string)
    requires Canonical(s)
    ensures FromString(s) == ValueOf(s)
  {
    CanonicalIsFixed(s);
  }

  /** " suv" gives SUV; the case-sensitive `valueOf` rejects "suv". */
  lemma {:induction false} LenientAndStrictParsing()
    ensures FromString(" suv") == Ok(Suv)
    ensures ValueOf("suv") == Err(IllegalArgument)
  {
    PaddedLowerSuv();
    assert ValueOf("SUV") == Ok(Suv);
  }

  /** " suv" trims to "suv", which upper-cases to "SUV". */
  lemma {:induction false} PaddedLowerSuv()
    ensures Upper(Trim(" suv")) == "SUV"
  {
    assert " suv" == [' '] + "suv";
    TrimSkipsLeadingBlank(' ', "suv");
    TrimFixed("suv");
    var u := Upper("suv");
    assert u[0] == 'S' && u[1] == 'U' && u[2] == 'V';
  }

  /** Surrounding whitespace and letter case do not matter. */
  lemma {:induction false} FromStringIgnoresPaddingAndCase(a: string, b: string)
    requires Upper(Trim(a)) == Upper(Trim(b)) || Upper(a) == Upper(b) || Trim(a) == Trim(b)
    ensures FromString(a) == FromString(b)
  {
    if Upper(a) == Upper(b) {
      TrimUpperCommute(a);
      TrimUpperCommute(b);
    }
  }
}

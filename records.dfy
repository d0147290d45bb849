/** The password records shared by every view, and the record filters the views apply. */
module Records {
  import opened Wrappers

  /** The three categories a password is classified into. */
  datatype PasswordType = Alphabetical | Numerical | Mixed

  /** The category as the string the dashboard stores and displays. */
  function Label(t: PasswordType): (s: string)
  {
    match t
    case Alphabetical => "ALPHABETICAL"
    case Numerical => "NUMERICAL"
    case Mixed => "MIXED"
  }

  /** Distinct categories have distinct labels, so a label names one category. */
  lemma LabelInjective(t: PasswordType, u: PasswordType)
    ensures Label(t) == Label(u) <==> t == u
  {
    if t != u {
      assert Label(t)[0] != Label(u)[0];
    }
  }

  /**
   * One row of the password table: `timeToCrack` is the textual crack time
   * the loader deletes, `passwordType` the field it derives.
   */
  datatype Record = Record(
    password: string,
    country: string,
    globalRank: int,
    rank: int,
    crackSeconds: real,
    userCount: int,
    timeToCrack: Option<string>,
    passwordType: Option<PasswordType>)

  /** The record predicates the views filter by. */
  datatype Criterion =
    | CountryIs(country: string)
    | CountryAndRankAtMost(country: string, maxRank: int)
    | TypeIs(passwordType: PasswordType)

  predicate Matches(c: Criterion, r: Record)
  {
    match c
    case CountryIs(country) => r.country == country
    case CountryAndRankAtMost(country, maxRank) => r.country == country && r.rank <= maxRank
    case TypeIs(t) => r.passwordType == Some(t)
  }

  /** Array.prototype.filter: the records of `s` that match `c`, in their order in `s`. */
  function Select(s: seq<Record>, c: Criterion): (r: seq<Record>)
    ensures |r| <= |s|
    ensures forall i :: 0 <= i < |r| ==> Matches(c, r[i])
  {
    if s == [] then []
    else if Matches(c, s[0]) then [s[0]] + Select(s[1..], c)
    else Select(s[1..], c)
  }

  /** A record is selected exactly when it occurs in the input and matches. */
  lemma {:induction false} SelectMembership(s: seq<Record>, c: Criterion, x: Record)
    ensures x in Select(s, c) <==> x in s && Matches(c, x)
  {
    if s != [] {
      SelectMembership(s[1..], c, x);
      assert s == [s[0]] + s[1..];
    }
  }

  /** Filtering distributes over concatenation, so the input's order is kept. */
  lemma {:induction false} SelectConcat(s: seq<Record>, t: seq<Record>, c: Criterion)
    ensures Select(s + t, c) == Select(s, c) + Select(t, c)
  {
    if s == [] {
      assert s + t == t;
    } else {
      assert (s + t)[1..] == s[1..] + t;
      SelectConcat(s[1..], t, c);
    }
  }

  /** Filtering takes each matching record as often as it occurs, and nothing else. */
  lemma {:induction false} SelectCount(s: seq<Record>, c: Criterion, x: Record)
    ensures multiset(Select(s, c))[x] == if Matches(c, x) then multiset(s)[x] else 0
  {
    if s != [] {
      SelectCount(s[1..], c, x);
      assert s == [s[0]] + s[1..];
    }
  }
}

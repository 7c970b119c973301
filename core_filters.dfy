/**
 * The filter backends of ggongsul/core/filters.py: MemberFilterBackend, and the
 * query-parameter checks of DistanceFilterBackend that run before its distance
 * computation (the haversine annotation and ordering are not part of this model).
 */
module CoreFilters {
  import opened Wrappers
  import Text
  import CoreValidators

  /**
   * MemberFilterBackend.filter_queryset: the rows whose member is the requesting
   * user, in queryset order. owner reads a row's (nullable) member id.
   */
  function MemberFilter<T(==,!new)>(rows: seq<T>, owner: T -> Option<nat>, user: nat): (r: seq<T>)
    ensures |r| <= |rows|
    ensures forall x :: x in r <==> x in rows && owner(x) == Some(user)
  {
    if rows == [] then []
    else
      var init := MemberFilter(rows[..|rows| - 1], owner, user);
      var last := rows[|rows| - 1];
      assert rows == rows[..|rows| - 1] + [last];
      if owner(last) == Some(user) then init + [last] else init
  }

  /** Filtering twice changes nothing more. */
  lemma {:induction false} MemberFilterIdempotent<T(!new)>(rows: seq<T>, owner: T -> Option<nat>, user: nat)
    ensures MemberFilter(MemberFilter(rows, owner, user), owner, user) == MemberFilter(rows, owner, user)
  {
    if rows != [] {
      var init := rows[..|rows| - 1];
      var last := rows[|rows| - 1];
      MemberFilterIdempotent(init, owner, user);
      var f := MemberFilter(init, owner, user);
      if owner(last) == Some(user) {
        var g := f + [last];
        assert g[..|g| - 1] == f;
      }
    }
  }

  /** The position of the first '.' in s, or |s| when there is none. */
  function FirstDot(s: string): (i: nat)
    ensures i <= |s| && '.' !in s[..i]
    ensures i < |s| <==> '.' in s
    ensures i < |s| ==> s[i] == '.'
  {
    if s == [] then 0
    else if s[0] == '.' then 0
    else
      var j := FirstDot(s[1..]);
      assert s[..j + 1] == [s[0]] + s[1..][..j];
      j + 1
  }

  /**
   * s.replace(".", "", 1): s without its first '.', every other character kept in
   * order; s itself when it has no dot.
   */
  function RemoveFirstDot(s: string): (r: string)
    ensures '.' !in s ==> r == s
    ensures '.' in s ==> |r| == |s| - 1
    ensures var i := FirstDot(s); i < |s| ==> r == s[..i] + s[i + 1..]
  {
    if s == [] then []
    else if s[0] == '.' then s[1..]
    else
      ConsSplit(s, FirstDot(s[1..]));
      [s[0]] + RemoveFirstDot(s[1..])
  }

  /** Dropping position j of the tail of s is dropping position j + 1 of s. */
  lemma ConsSplit(s: string, j: nat)
    requires |s| > 0
    ensures j < |s| - 1 ==> [s[0]] + (s[1..][..j] + s[1..][j + 1..]) == s[..j + 1] + s[j + 2..]
  {
    if j < |s| - 1 {
      assert s[..j + 1] == [s[0]] + s[1..][..j];
      assert s[j + 2..] == s[1..][j + 1..];
    }
  }

  /** str.isnumeric(), for ASCII text: non-empty and all decimal digits. */
  predicate IsNumeric(s: string) { |s| > 0 && Text.AllDigits(s) }

  /** The check each coordinate must pass: numeric after dropping its first dot. */
  predicate CoordinateOk(s: string) { IsNumeric(RemoveFirstDot(s)) }

  /** The number of dots in s. */
  function DotCount(s: string): nat
  {
    if s == [] then 0 else (if s[0] == '.' then 1 else 0) + DotCount(s[1..])
  }

  /** Only digits and dots. */
  predicate DigitsAndDots(s: string)
  {
    forall i :: 0 <= i < |s| ==> Text.IsDigit(s[i]) || s[i] == '.'
  }

  /**
   * A coordinate passes exactly when it consists of digits and at most one dot,
   * with at least one digit: signs, exponents, spaces and a second dot all fail.
   */
  lemma CoordinateOkIff(s: string)
    ensures CoordinateOk(s) <==>
              && DigitsAndDots(s)
              && DotCount(s) <= 1
              && (exists i :: 0 <= i < |s| && Text.IsDigit(s[i]))
  {
    var r := RemoveFirstDot(s);
    AllDigitsAfterRemoval(s);
    RemoveFirstDotKeeps(s);
    if CoordinateOk(s) {
      assert r[0] in s;
      var i :| 0 <= i < |s| && s[i] == r[0];
      assert Text.IsDigit(s[i]);
    }
    if exists i :: 0 <= i < |s| && Text.IsDigit(s[i]) {
      var i :| 0 <= i < |s| && Text.IsDigit(s[i]);
      assert s[i] in r;
    }
  }

  /** Text without dots is all digits exactly when it holds only digits and dots. */
  lemma {:induction false} AllDigitsWithoutDots(t: string)
    ensures Text.AllDigits(t) <==> DigitsAndDots(t) && DotCount(t) == 0
  {
    if t != [] {
      AllDigitsWithoutDots(t[1..]);
      assert forall i :: 0 < i < |t| ==> t[i] == t[1..][i - 1];
    }
  }

  /** After dropping the first dot, only digits remain exactly when s held digits and at most one dot. */
  lemma {:induction false} AllDigitsAfterRemoval(s: string)
    ensures Text.AllDigits(RemoveFirstDot(s)) <==> DigitsAndDots(s) && DotCount(s) <= 1
  {
    if s != [] {
      assert forall i :: 0 < i < |s| ==> s[i] == s[1..][i - 1];
      if s[0] == '.' {
        AllDigitsWithoutDots(s[1..]);
      } else {
        AllDigitsAfterRemoval(s[1..]);
        var t := RemoveFirstDot(s[1..]);
        assert RemoveFirstDot(s) == [s[0]] + t;
        AllDigitsCons(s[0], t);
        assert DigitsAndDots(s) <==> Text.IsDigit(s[0]) && DigitsAndDots(s[1..]);
      }
    }
  }

  lemma AllDigitsCons(c: char, t: string)
    ensures Text.AllDigits([c] + t) <==> Text.IsDigit(c) && Text.AllDigits(t)
  {
    var u := [c] + t;
    assert u[0] == c;
    assert forall i :: 0 < i < |u| ==> u[i] == t[i - 1];
    if Text.AllDigits(u) {
      forall i | 0 <= i < |t| ensures Text.IsDigit(t[i]) {
        assert t[i] == u[i + 1];
      }
    }
  }

  /** RemoveFirstDot invents no character and keeps every character but the dropped dot. */
  lemma {:induction false} RemoveFirstDotKeeps(s: string)
    ensures var r := RemoveFirstDot(s);
            && (forall i :: 0 <= i < |r| ==> r[i] in s)
            && (forall i :: 0 <= i < |s| && s[i] != '.' ==> s[i] in r)
  {
    if s != [] {
      RemoveFirstDotKeeps(s[1..]);
      var r := RemoveFirstDot(s);
      if s[0] != '.' {
        var t := RemoveFirstDot(s[1..]);
        assert r == [s[0]] + t;
        forall i | 0 <= i < |r| ensures r[i] in s {
          if i > 0 {
            assert r[i] == t[i - 1];
            assert t[i - 1] in s[1..];
          }
        }
        forall i | 0 <= i < |s| && s[i] != '.' ensures s[i] in r {
          if i > 0 {
            assert s[i] == s[1..][i - 1];
          }
        }
      } else {
        forall i | 0 <= i < |s| && s[i] != '.' ensures s[i] in r {
          assert s[i] == s[1..][i - 1];
        }
      }
    }
  }

  /** Every negative coordinate is rejected, whatever follows the sign. */
  lemma NegativeCoordinateRejected(s: string)
    ensures !CoordinateOk("-" + s)
  {
    CoordinateOkIff("-" + s);
    assert ("-" + s)[0] == '-';
  }

  /** Plain decimals pass; a second dot or an empty number fails. */
  lemma CoordinateExamples()
    ensures CoordinateOk("37.5") && CoordinateOk("127") && CoordinateOk("5.")
    ensures !CoordinateOk("1.2.3") && !CoordinateOk(".") && !CoordinateOk("")
  {
    PassingExamples();
    FailingExamples();
  }

  lemma PassingExamples()
    ensures CoordinateOk("37.5") && CoordinateOk("127") && CoordinateOk("5.")
  {
    assert FirstDot("37.5") == 2 && "37.5"[..2] + "37.5"[3..] == "375";
    assert FirstDot("5.") == 1 && "5."[..1] + "5."[2..] == "5";
    assert "127"[0] != '.' && "127"[1] != '.' && "127"[2] != '.';
  }

  lemma FailingExamples()
    ensures !CoordinateOk("1.2.3") && !CoordinateOk(".") && !CoordinateOk("")
  {
    assert FirstDot("1.2.3") == 1 && "1.2.3"[..1] + "1.2.3"[2..] == "12.3";
    assert "12.3"[2] == '.';
  }

  const DEFAULT_DISTANCE_NUM_KM: int := 5

  /** Why DistanceFilterBackend refuses a request. */
  datatype DistanceError =
    | MissingParams(messages: seq<string>)   // from validate_dict_key
    | NotFloat                               // "'lat' and 'lng' query params should be float!"

  /** The accepted coordinates (as text) and the search radius. */
  datatype DistanceQuery = DistanceQuery(lat: string, lng: string, numKm: int)

  /**
   * DistanceFilterBackend.filter_queryset up to the distance computation: both
   * parameters must be present (checked first), then both must pass the numeric
   * check; the radius is the view's distance_num_km, or 5.
   */
  function DistanceParams(params: map<string, string>, viewNumKm: Option<int>): (r: Result<DistanceQuery, DistanceError>)
    ensures r.Failure? && r.error.MissingParams? <==> "lat" !in params || "lng" !in params
    ensures r.Failure? && r.error.MissingParams? ==>
              && r.error.messages == CoreValidators.MissingKeyMessages(params, ["lat", "lng"])
              && r.error.messages == (if "lat" in params then [] else [CoreValidators.RequiredMessage("lat")])
                                     + (if "lng" in params then [] else [CoreValidators.RequiredMessage("lng")])
    ensures r.Failure? && r.error.NotFloat? <==>
              "lat" in params && "lng" in params && !(CoordinateOk(params["lat"]) && CoordinateOk(params["lng"]))
    ensures r.Success? ==> && r.value.lat == params["lat"] && r.value.lng == params["lng"]
                           && CoordinateOk(r.value.lat) && CoordinateOk(r.value.lng)
                           && r.value.numKm == (if viewNumKm.Some? then viewNumKm.value else 5)
  {
    var keys := ["lat", "lng"];
    var missing := CoreValidators.MissingKeyMessages(params, keys);
    if missing != [] then Failure(MissingParams(missing))
    else
      assert keys[0] in params && keys[1] in params;
      var lat := params["lat"];
      var lng := params["lng"];
      if !CoordinateOk(lat) || !CoordinateOk(lng) then Failure(NotFloat)
      else Success(DistanceQuery(lat, lng, if viewNumKm.Some? then viewNumKm.value else DEFAULT_DISTANCE_NUM_KM))
  }
}

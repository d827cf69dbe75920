/** Helpers shared by the location and report scrapers (`scarping/util.ts`). */
module Util {
  import opened Wrappers
  import opened JsText
  import opened JsNumbers
  import opened Domain

  /** Great-circle distance in km between (latitude1, longitude1) and
      (latitude2, longitude2). The haversine formula itself is not modelled:
      every operation that measures distances takes it as a parameter. */
  type Distance = (real, real, real, real) -> real

  /** hasCoordinates: only `null` counts as missing, so a record whose
      coordinates are `undefined` (or NaN) is taken to have coordinates. */
  predicate HasCoordinates(latitude: JsNum, longitude: JsNum) {
    latitude != Null && longitude != Null
  }

  /** A database column as JavaScript sees it: an unset column is `null`. */
  function Column(x: Option<real>): (r: JsNum)
    ensures r.Null? <==> x.None?
  {
    match x
    case None => Null
    case Some(v) => Num(v)
  }

  /** hasCoordinates of a stored location: both columns set. */
  predicate LocationHasCoordinates(l: Location) {
    HasCoordinates(Column(l.latitude), Column(l.longitude))
  }

  lemma StoredCoordinatesPresent(l: Location)
    ensures LocationHasCoordinates(l) <==> l.latitude.Some? && l.longitude.Some?
  {
  }

  /** hasCoordinates of a source record. */
  predicate RecordHasCoordinates(r: LocationDto) {
    HasCoordinates(r.latitude, r.longitude)
  }

  lemma UndefinedCountsAsPresent(r: LocationDto)
    requires r.latitude == Undefined && r.longitude == Undefined
    ensures RecordHasCoordinates(r)
  {
  }

  /** The index of the first element of `a` on which `f` is smallest. */
  function ArgMin<T>(a: seq<T>, f: T -> real): (k: nat)
    requires |a| > 0
    ensures k < |a|
  {
    if |a| == 1 then 0
    else
      var k := ArgMin(a[..|a| - 1], f);
      if f(a[|a| - 1]) < f(a[k]) then |a| - 1 else k
  }

  /** ArgMin picks a smallest element, and the first of equally small ones. */
  lemma {:induction false} ArgMinIsFirstMinimum<T>(a: seq<T>, f: T -> real)
    requires |a| > 0
    ensures forall j :: 0 <= j < |a| ==> f(a[ArgMin(a, f)]) <= f(a[j])
    ensures forall j :: 0 <= j < ArgMin(a, f) ==> f(a[ArgMin(a, f)]) < f(a[j])
    decreases |a|
  {
    if |a| > 1 {
      var b := a[..|a| - 1];
      ArgMinIsFirstMinimum(b, f);
      assert forall j :: 0 <= j < |b| ==> b[j] == a[j];
    }
  }

  /** minBy: throws on an empty array, otherwise returns the first element
      with the smallest value of `f` (later ones replace it only when they are
      strictly smaller). */
  method MinBy<T>(a: seq<T>, f: T -> real) returns (r: Result<T, string>)
    ensures r.Failure? <==> |a| == 0
    ensures r.Success? ==> r.value == a[ArgMin(a, f)]
  {
    if |a| == 0 {
      return Failure("Can't get min of empty array");
    }
    var minElement := a[0];
    var minVal := f(minElement);
    ghost var k := 0;
    var i := 0;
    while i < |a|
      invariant 0 <= i <= |a|
      invariant k < |a| && minElement == a[k] && minVal == f(a[k])
      invariant k == ArgMin(a[..if i == 0 then 1 else i], f)
    {
      var value := f(a[i]);
      assert a[..i + 1][..i] == a[..i];
      if value < minVal {
        minElement := a[i];
        minVal := value;
        k := i;
      }
      i := i + 1;
    }
    assert a[..i] == a;
    return Success(minElement);
  }

  /** urlToFilename: every '/' becomes '.', nothing else changes. */
  function UrlToFilename(url: string): (r: string)
    ensures |r| == |url|
    ensures forall i :: 0 <= i < |url| ==> r[i] == (if url[i] == '/' then '.' else url[i])
    ensures '/' !in r
  {
    ReplaceChar(url, '/', '.')
  }
}

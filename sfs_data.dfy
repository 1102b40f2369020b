/**
 * The SmartFoxServer data object (ISFSObject) the messages are written to: a map from key
 * to a typed value. A getter gives null for a missing key and fails with a cast error for a
 * value of another type; a put of a null string is refused.
 */
module Sfs {
  import opened Wrappers

  datatype Value =
    | UtfString(text: string)
    | Int(number: int)
    | Double(decimal: real)
    | Bool(flag: bool)
    | IntArray(ints: seq<int>)
    | DoubleArray(doubles: seq<real>)

  type SFSObject = map<string, Value>

  /** putUtfString: the string is stored under the key; a null string is refused. */
  function PutUtfString(o: SFSObject, key: string, v: Option<string>): (r: Result<SFSObject>)
    ensures r.Err? <==> v.None?
    ensures r.Err? ==> r.fault == IllegalArgument
    ensures r.Ok? ==> key in r.value && r.value[key] == UtfString(v.value)
    ensures r.Ok? ==> forall k :: k != key ==> (k in r.value <==> k in o) && (k in o ==> r.value[k] == o[k])
  {
    match v
    case None => Err(IllegalArgument)
    case Some(s) => Ok(o[key := UtfString(s)])
  }

  function GetUtfString(o: SFSObject, key: string): (r: Result<Option<string>>)
    ensures key !in o <==> r == Ok(None)
    ensures r.Ok? && r.value.Some? <==> key in o && o[key].UtfString?
    ensures r.Ok? && r.value.Some? ==> r.value.value == o[key].text
    ensures r.Err? <==> key in o && !o[key].UtfString?
    ensures r.Err? ==> r.fault == ClassCast
  {
    if key !in o then Ok(None)
    else if o[key].UtfString? then Ok(Some(o[key].text))
    else Err(ClassCast)
  }

  function GetInt(o: SFSObject, key: string): (r: Result<Option<int>>)
    ensures key !in o <==> r == Ok(None)
    ensures r.Ok? && r.value.Some? <==> key in o && o[key].Int?
    ensures r.Ok? && r.value.Some? ==> r.value.value == o[key].number
    ensures r.Err? ==> r.fault == ClassCast
  {
    if key !in o then Ok(None)
    else if o[key].Int? then Ok(Some(o[key].number))
    else Err(ClassCast)
  }

  function GetDouble(o: SFSObject, key: string): (r: Result<Option<real>>)
    ensures key !in o <==> r == Ok(None)
    ensures r.Ok? && r.value.Some? <==> key in o && o[key].Double?
    ensures r.Ok? && r.value.Some? ==> r.value.value == o[key].decimal
    ensures r.Err? ==> r.fault == ClassCast
  {
    if key !in o then Ok(None)
    else if o[key].Double? then Ok(Some(o[key].decimal))
    else Err(ClassCast)
  }

  function GetBool(o: SFSObject, key: string): (r: Result<Option<bool>>)
    ensures key !in o <==> r == Ok(None)
    ensures r.Ok? && r.value.Some? <==> key in o && o[key].Bool?
    ensures r.Ok? && r.value.Some? ==> r.value.value == o[key].flag
    ensures r.Err? ==> r.fault == ClassCast
  {
    if key !in o then Ok(None)
    else if o[key].Bool? then Ok(Some(o[key].flag))
    else Err(ClassCast)
  }

  /**
   * getIntArray turned into an int[]: the stored list, or an empty array when the key is
   * missing.
   */
  function ReadIntArray(o: SFSObject, key: string): (r: Result<seq<int>>)
    ensures key !in o ==> r == Ok([])
    ensures key in o && o[key].IntArray? ==> r == Ok(o[key].ints)
    ensures r.Err? <==> key in o && !o[key].IntArray?
    ensures r.Err? ==> r.fault == ClassCast
  {
    if key !in o then Ok([])
    else if o[key].IntArray? then Ok(o[key].ints)
    else Err(ClassCast)
  }

  function ReadDoubleArray(o: SFSObject, key: string): (r: Result<seq<real>>)
    ensures key !in o ==> r == Ok([])
    ensures key in o && o[key].DoubleArray? ==> r == Ok(o[key].doubles)
    ensures r.Err? <==> key in o && !o[key].DoubleArray?
    ensures r.Err? ==> r.fault == ClassCast
  {
    if key !in o then Ok([])
    else if o[key].DoubleArray? then Ok(o[key].doubles)
    else Err(ClassCast)
  }

  /** Unboxing a getter's Integer or Double into a primitive: null throws. */
  function Unbox<T>(r: Result<Option<T>>): (u: Result<T>)
    ensures r == Ok(None) ==> u == Err(NullReference)
    ensures r.Err? ==> u == Err(r.fault)
    ensures r.Ok? && r.value.Some? ==> u == Ok(r.value.value)
  {
    match r
    case Err(e) => Err(e)
    case Ok(None) => Err(NullReference)
    case Ok(Some(v)) => Ok(v)
  }

  /** The for-each loop that copies an int[] into a List<Integer>, element by element. */
  method IntList(a: seq<int>) returns (list: seq<int>)
    ensures list == a
  {
    list := [];
    var i := 0;
    while i < |a|
      invariant 0 <= i <= |a| && list == a[..i]
    {
      list := list + [a[i]];
      i := i + 1;
    }
  }

  /** The for-each loop that copies a double[] into a List<Double>, element by element. */
  method DoubleList(a: seq<real>) returns (list: seq<real>)
    ensures list == a
  {
    list := [];
    var i := 0;
    while i < |a|
      invariant 0 <= i <= |a| && list == a[..i]
    {
      list := list + [a[i]];
      i := i + 1;
    }
  }
}

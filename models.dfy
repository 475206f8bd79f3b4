/**
 * The field validators of the request models. Each one either refuses the
 * value with the message of the `ValueError` it raises, or gives the value
 * the model stores (stripped text, the speed as a float, the cleaned device
 * list).
 */
module Models {
  import opened Wrappers
  import Text

  /**
   * The required-text validator shared by text, content, topic and user
   * message: empty or all-whitespace text is refused with
   * "<Field> cannot be empty or only whitespace"; otherwise the stripped
   * text is stored.
   */
  function Required(v: string, field: string): (r: Result<string, string>)
    ensures r.Ok? <==> !Text.IsBlank(v)
    ensures r.Err? ==> r.error == field + " cannot be empty or only whitespace"
    ensures r.Ok? ==> r.value == Text.Strip(v) && r.value != []
    ensures r.Ok? ==> !Text.IsSpace(r.value[0]) && !Text.IsSpace(r.value[|r.value| - 1])
  {
    if Text.IsBlank(v) then Err(field + " cannot be empty or only whitespace") else Ok(Text.Strip(v))
  }

  /** A stored value passes its validator again unchanged. */
  lemma RequiredIsStable(v: string, field: string)
    requires Required(v, field).Ok?
    ensures Required(Required(v, field).value, field) == Required(v, field)
  {
    Text.StripIdempotent(v);
  }

  /**
   * The update models' content validator: an absent value passes through;
   * a given one is judged like the create models' content.
   */
  function Optional(v: Option<string>, field: string): (r: Result<Option<string>, string>)
    ensures v.None? ==> r == Ok(None)
    ensures v.Some? && Required(v.value, field).Ok? ==> r == Ok(Some(Required(v.value, field).value))
    ensures v.Some? && Required(v.value, field).Err? ==> r == Err(Required(v.value, field).error)
  {
    match v
    case None => Ok(None)
    case Some(s) =>
      if Text.IsBlank(s) then Err(field + " cannot be empty or only whitespace") else Ok(Some(Text.Strip(s)))
  }

  const MinSpeed: real := 0.5
  const MaxSpeed: real := 2.0

  /**
   * The speed validator: a number from 0.5 to 2.0 inclusive, returned as a
   * float. NaN fails both comparisons, so the validator returns it; the
   * field's declarative `ge=0.5` refuses NaN before the validator runs.
   */
  function Speed(v: Number): (r: Result<Number, string>)
    ensures v.NotNumber? ==> r == Err("Speed must be a number")
    ensures v.Int? ==> (r.Ok? <==> MinSpeed <= v.i as real <= MaxSpeed) && (r.Ok? ==> r.value == Float(v.i as real))
    ensures v.Float? ==> (r.Ok? <==> MinSpeed <= v.x <= MaxSpeed) && (r.Ok? ==> r.value == v)
    ensures v.NaN? ==> r == Ok(NaN)
    ensures r.Ok? ==> r.value.NaN? || (r.value.Float? && MinSpeed <= r.value.x <= MaxSpeed)
    ensures r.Err? && !v.NotNumber? ==> r.error == "Speed must be between 0.5 and 2.0"
  {
    match v
    case NotNumber => Err("Speed must be a number")
    case NaN => Ok(NaN)
    case Int(i) => InRange(i as real)
    case Float(x) => InRange(x)
  }

  function InRange(x: real): (r: Result<Number, string>)
    ensures r.Ok? <==> MinSpeed <= x <= MaxSpeed
    ensures r.Ok? ==> r.value == Float(x)
    ensures r.Err? ==> r.error == "Speed must be between 0.5 and 2.0"
  {
    if x < MinSpeed || x > MaxSpeed then Err("Speed must be between 0.5 and 2.0") else Ok(Float(x))
  }

  /** What one entry contributes: nothing when blank, else its stripped form. */
  function CleanOne(d: string): (r: seq<string>)
    ensures |r| <= 1
    ensures r == [] <==> Text.IsBlank(d)
    ensures r != [] ==> r[0] == Text.Strip(d) && Text.Stripped(r[0])
  {
    if Text.IsBlank(d) then [] else [Text.Strip(d)]
  }

  /** The devices, each stripped, blank ones dropped, in their order. */
  function CleanDevices(v: seq<string>): (r: seq<string>)
    ensures |r| <= |v|
    ensures forall i :: 0 <= i < |r| ==> Text.Stripped(r[i])
  {
    if v == [] then []
    else
      var r := CleanOne(v[0]) + CleanDevices(v[1..]);
      assert forall i :: 0 <= i < |r| ==> Text.Stripped(r[i]) by {
        forall i | 0 <= i < |r| ensures Text.Stripped(r[i]) {
          if i >= |CleanOne(v[0])| {
            assert r[i] == CleanDevices(v[1..])[i - |CleanOne(v[0])|];
          }
        }
      }
      r
  }

  /** Cleaning distributes over concatenation, so the order of the kept devices is the input order. */
  lemma {:induction false} CleanDevicesAppend(a: seq<string>, b: seq<string>)
    ensures CleanDevices(a + b) == CleanDevices(a) + CleanDevices(b)
  {
    if a == [] {
      assert a + b == b;
    } else {
      assert (a + b)[0] == a[0];
      assert (a + b)[1..] == a[1..] + b;
      CleanDevicesAppend(a[1..], b);
      var h := CleanOne(a[0]);
      assert CleanDevices(a + b) == h + (CleanDevices(a[1..]) + CleanDevices(b));
      assert h + (CleanDevices(a[1..]) + CleanDevices(b)) == (h + CleanDevices(a[1..])) + CleanDevices(b);
    }
  }

  /** Every non-blank entry is kept, stripped; nothing else appears. */
  lemma {:induction false} CleanDevicesMembers(v: seq<string>, x: string)
    ensures x in CleanDevices(v) <==> exists d :: d in v && !Text.IsBlank(d) && x == Text.Strip(d)
  {
    if v != [] {
      CleanDevicesMembers(v[1..], x);
      var h := CleanOne(v[0]);
      assert CleanDevices(v) == h + CleanDevices(v[1..]);
      if x in h {
        assert v[0] in v;
      } else if x in CleanDevices(v[1..]) {
        var d :| d in v[1..] && !Text.IsBlank(d) && x == Text.Strip(d);
        assert d in v;
      } else {
        forall d | d in v && !Text.IsBlank(d) ensures x != Text.Strip(d) {
          if d != v[0] {
            assert d in v[1..];
          }
        }
      }
    }
  }

  /** A kept entry is kept again, unchanged. */
  lemma CleanOneStable(d: string)
    ensures CleanDevices(CleanOne(d)) == CleanOne(d)
  {
    if !Text.IsBlank(d) {
      Text.StripIdempotent(d);
      KeepStripped(Text.Strip(d));
    }
  }

  lemma KeepStripped(x: string)
    requires !Text.IsBlank(x) && Text.Strip(x) == x
    ensures CleanDevices([x]) == [x]
  {
    assert [x][1..] == [];
    assert CleanOne(x) == [x];
  }

  /** A cleaned list is cleaned already. */
  lemma {:induction false} CleanDevicesIdempotent(v: seq<string>)
    ensures CleanDevices(CleanDevices(v)) == CleanDevices(v)
  {
    if v != [] {
      CleanDevicesIdempotent(v[1..]);
      var h := CleanOne(v[0]);
      var rest := CleanDevices(v[1..]);
      assert CleanDevices(v) == h + rest;
      CleanDevicesAppend(h, rest);
      CleanOneStable(v[0]);
    }
  }

  /**
   * The devices validator: an empty list is refused; otherwise the cleaned
   * list is stored, which may be empty when every entry was blank.
   */
  function Devices(v: seq<string>): (r: Result<seq<string>, string>)
    ensures r.Err? <==> v == []
    ensures r.Err? ==> r.error == "At least one rhetorical device must be selected"
    ensures r.Ok? ==> r.value == CleanDevices(v)
  {
    if v == [] then Err("At least one rhetorical device must be selected") else Ok(CleanDevices(v))
  }

  const GoalTypes: seq<string> := ["words", "writings", "speeches", "poems", "conversations"]
  const Periods: seq<string> := ["daily", "weekly", "monthly"]

  /** One of a fixed list of names: kept as given, or refused with the list in the message. */
  function OneOf(v: string, valid: seq<string>, what: string): (r: Result<string, string>)
    ensures r.Ok? <==> v in valid
    ensures r.Ok? ==> r.value == v
    ensures r.Err? ==> r.error == what + " must be one of: " + Text.Join(valid, ", ")
  {
    if v in valid then Ok(v) else Err(what + " must be one of: " + Text.Join(valid, ", "))
  }

  /** `goal_type` is words, writings, speeches, poems or conversations, compared exactly (case matters). */
  function GoalType(v: string): (r: Result<string, string>)
    ensures r.Ok? <==> v in GoalTypes
    ensures r.Ok? ==> r.value == v
  {
    OneOf(v, GoalTypes, "Goal type")
  }

  /** `period` is daily, weekly or monthly. */
  function Period(v: string): (r: Result<string, string>)
    ensures r.Ok? <==> v in Periods
    ensures r.Ok? ==> r.value == v
  {
    OneOf(v, Periods, "Period")
  }

  /**
   * Case matters: an accepted period is already lower-case, so any spelling
   * with a capital letter ("Daily", "WEEKLY") is refused.
   */
  lemma PeriodIsCaseSensitive(v: string)
    ensures Period(v).Ok? ==> Text.Lower(v) == v
    ensures Text.Lower(v) != v ==> Period(v).Err?
  {
    if v in Periods {
      LowerOfLower(v);
    }
  }

  /** A string of lower-case letters is its own lower-casing. */
  lemma LowerOfLower(v: string)
    requires forall i :: 0 <= i < |v| ==> 'a' <= v[i] <= 'z'
    ensures Text.Lower(v) == v
  {
  }
}

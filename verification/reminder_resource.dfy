/** The Laravel reminder resource (app/Resources/ReminderResource.php): the JSON
    array it renders, the window filter over the rule's ascending occurrence
    stream, and its loose `KEY=VALUE;…` reading of a rule string (section 3.3.10
    of RFC 5545 gives the grammar it approximates). */
module ReminderResource {
  import opened Wrappers
  import opened Recurrence
  import opened Strings

  // ---------------------------------------------------------------------------
  // The window filter

  /** Occurrences as the rule iterator yields them: never decreasing. */
  predicate Ascending(s: seq<Time>)
  {
    forall i, j :: 0 <= i < j < |s| ==> s[i] <= s[j]
  }

  /** The elements of `s` inside `[start, end]`, in their order. */
  function InWindow(s: seq<Time>, start: Time, end: Time): seq<Time>
  {
    if |s| == 0 then []
    else (if start <= s[0] <= end then [s[0]] else []) + InWindow(s[1..], start, end)
  }

  lemma {:induction false} InWindowConcat(a: seq<Time>, b: seq<Time>, start: Time, end: Time)
    ensures InWindow(a + b, start, end) == InWindow(a, start, end) + InWindow(b, start, end)
  {
    if |a| > 0 {
      assert (a + b)[0] == a[0];
      assert (a + b)[1..] == a[1..] + b;
      InWindowConcat(a[1..], b, start, end);
    } else {
      assert a + b == b;
    }
  }

  lemma {:induction false} InWindowAllAfter(s: seq<Time>, start: Time, end: Time)
    requires forall k :: 0 <= k < |s| ==> s[k] > end
    ensures InWindow(s, start, end) == []
  {
    if |s| > 0 {
      InWindowAllAfter(s[1..], start, end);
    }
  }

  /** What is in the window is exactly the stream's elements between the bounds. */
  lemma {:induction false} InWindowMembers(s: seq<Time>, start: Time, end: Time)
    ensures forall t :: t in InWindow(s, start, end) <==> t in s && start <= t <= end
  {
    if |s| > 0 {
      InWindowMembers(s[1..], start, end);
      assert s == [s[0]] + s[1..];
    }
  }

  /** `getOccurrencesBetween`: walks the stream, skipping what comes before the
      window and stopping at the first element after it. The result is exactly
      the stream's elements in `[start, end]`, in order; `stop` is where the walk
      ended: everything before it lies before or inside the window, and it is
      the first element past both bounds. */
  method GetOccurrencesBetween(stream: seq<Time>, start: Time, end: Time) returns (dates: seq<Time>, stop: nat)
    requires Ascending(stream)
    ensures dates == InWindow(stream, start, end)
    ensures forall t :: t in dates <==> t in stream && start <= t <= end
    ensures stop <= |stream|
    ensures forall k :: 0 <= k < stop ==> stream[k] < start || stream[k] <= end
    ensures stop < |stream| ==> start <= stream[stop] && stream[stop] > end
  {
    dates := [];
    var i := 0;
    while i < |stream|
      invariant i <= |stream|
      invariant dates == InWindow(stream[..i], start, end)
      invariant forall k :: 0 <= k < i ==> stream[k] < start || stream[k] <= end
    {
      var occurrence := stream[i];
      if occurrence < start {
        InWindowConcat(stream[..i], [occurrence], start, end);
        assert stream[..i + 1] == stream[..i] + [occurrence];
        i := i + 1;
        continue;
      }
      if occurrence > end {
        break;
      }
      InWindowConcat(stream[..i], [occurrence], start, end);
      assert stream[..i + 1] == stream[..i] + [occurrence];
      dates := dates + [occurrence];
      i := i + 1;
    }
    stop := i;
    InWindowAllAfter(stream[i..], start, end);
    InWindowConcat(stream[..i], stream[i..], start, end);
    assert stream[..i] + stream[i..] == stream;
    InWindowMembers(stream, start, end);
  }

  // ---------------------------------------------------------------------------
  // The rendered array

  /** The model attributes the resource reads. */
  datatype Attributes = Attributes(id: string, rrule: string, description: Option<string>, startAt: string)

  datatype Value = VString(s: string) | VNull | VDates(dates: seq<Time>)

  datatype Entry = Entry(key: string, value: Value)

  function OptionalString(o: Option<string>): Value
  {
    match o
    case Some(s) => VString(s)
    case None => VNull
  }

  /** `toArray`: the attributes as they are, the rule in words (`ruleText`, the
      library's rendering), and the occurrences only when the request carries
      both `start_date` and `end_date`. `stream` is the rule's occurrence stream
      and `parseDate` PHP's reading of a date string. */
  method ToArray(attrs: Attributes, ruleText: string, stream: seq<Time>,
                 input: map<string, string>, parseDate: string -> Time)
    returns (data: seq<Entry>)
    requires Ascending(stream)
    ensures |data| == 5 || |data| == 6
    ensures data[..5] == [ Entry("id", VString(attrs.id)),
                           Entry("rrule", VString(attrs.rrule)),
                           Entry("rrule_human", VString(ruleText)),
                           Entry("description", OptionalString(attrs.description)),
                           Entry("start_at", VString(attrs.startAt)) ]
    ensures |data| == 6 <==> "start_date" in input && "end_date" in input
    ensures |data| == 6 ==>
              var from := parseDate(input["start_date"]);
              var to := parseDate(input["end_date"]);
              && data[5].key == "occurrences"
              && data[5].value.VDates?
              && data[5].value.dates == InWindow(stream, from, to)
              && forall t :: t in data[5].value.dates <==> t in stream && from <= t <= to
  {
    data := [ Entry("id", VString(attrs.id)),
              Entry("rrule", VString(attrs.rrule)),
              Entry("rrule_human", VString(ruleText)),
              Entry("description", OptionalString(attrs.description)),
              Entry("start_at", VString(attrs.startAt)) ];
    if "start_date" in input && "end_date" in input {
      var dates, _ := GetOccurrencesBetween(stream, parseDate(input["start_date"]), parseDate(input["end_date"]));
      data := data + [Entry("occurrences", VDates(dates))];
    }
  }

  // ---------------------------------------------------------------------------
  // The rule tokenizer

  /** A component value handed to the rule object's constructor. */
  datatype Component = Text(s: string) | Days(days: seq<string>) | Int(n: int) | Date(t: Time)

  /** PHP's casts the tokenizer uses: `(int)` on a string and `new \DateTime`. */
  datatype PhpRuntime = PhpRuntime(intCast: string -> int, parseDate: string -> Time)

  /** `explode('=', part, 2)`: the key before the first `=`, the rest (which may
      hold more `=`) as the value; putting them back together gives the part. */
  function SplitPair(part: string): (kv: (string, string))
    requires '=' in part
    ensures '=' !in kv.0
    ensures kv.0 + "=" + kv.1 == part
  {
    var i := IndexOf(part, '=');
    assert part == part[..i] + "=" + part[i + 1..];
    (part[..i], part[i + 1..])
  }

  /** True when `part` assigns to `key`. */
  predicate Defines(part: string, key: string)
  {
    '=' in part && SplitPair(part).0 == key
  }

  /** The value each key is converted to: BYDAY to its comma-separated days;
      the numeric keys through `(int)`; UNTIL through `DateTime`; FREQ, WKST and
      every other key as the text it is. */
  function Convert(key: string, value: string, rt: PhpRuntime): Component
  {
    if key == "BYDAY" then Days(Split(value, ','))
    else if key == "FREQ" || key == "WKST" then Text(value)
    else if key in ["INTERVAL", "COUNT", "BYHOUR", "BYMINUTE", "BYMONTHDAY"] then Int(rt.intCast(value))
    else if key == "UNTIL" then Date(rt.parseDate(value))
    else Text(value)
  }

  /** One iteration of the loop: a part without `=` is dropped; otherwise its
      key is (re)assigned its converted value. */
  function AddPart(acc: map<string, Component>, part: string, rt: PhpRuntime): map<string, Component>
  {
    if '=' in part then
      var (key, value) := SplitPair(part);
      acc[key := Convert(key, value, rt)]
    else acc
  }

  /** The loop over the parts, first to last. */
  function AddParts(acc: map<string, Component>, parts: seq<string>, rt: PhpRuntime): map<string, Component>
    decreases |parts|
  {
    if |parts| == 0 then acc else AddParts(AddPart(acc, parts[0], rt), parts[1..], rt)
  }

  /** The parts of a rule string: every `RRULE:` deleted, then cut at `;`. */
  function Parts(rrule: string): (parts: seq<string>)
    ensures |parts| >= 1
    ensures forall k :: 0 <= k < |parts| ==> ';' !in parts[k]
    ensures Join(parts, ";") == RemoveAll(rrule, "RRULE:")
  {
    Split(RemoveAll(rrule, "RRULE:"), ';')
  }

  /** `createRRuleObject`: the components read from the rule string, with
      DTSTART always taken from `startAt`, whatever the string said. */
  function CreateRRuleObject(rrule: string, startAt: string, rt: PhpRuntime): (c: map<string, Component>)
    ensures "DTSTART" in c && c["DTSTART"] == Date(rt.parseDate(startAt))
  {
    AddParts(map[], Parts(rrule), rt)["DTSTART" := Date(rt.parseDate(startAt))]
  }

  /** `i` is the last part that assigns to `key`. */
  predicate LastDefinition(parts: seq<string>, key: string, i: int)
  {
    && 0 <= i < |parts|
    && Defines(parts[i], key)
    && forall j :: i < j < |parts| ==> !Defines(parts[j], key)
  }

  /** The loop keeps a key it never meets as it was. */
  lemma {:induction false} AddPartsUntouched(acc: map<string, Component>, parts: seq<string>, key: string, rt: PhpRuntime)
    requires forall j :: 0 <= j < |parts| ==> !Defines(parts[j], key)
    ensures key in AddParts(acc, parts, rt) <==> key in acc
    ensures key in acc ==> AddParts(acc, parts, rt)[key] == acc[key]
    decreases |parts|
  {
    if |parts| > 0 {
      AddPartsUntouched(AddPart(acc, parts[0], rt), parts[1..], key, rt);
    }
  }

  /** Later assignments overwrite earlier ones: after the loop a key is present
      exactly when some part assigns to it, and holds what its last assignment
      converts to. */
  lemma {:induction false} AddPartsLastWins(acc: map<string, Component>, parts: seq<string>, key: string, rt: PhpRuntime)
    ensures key in AddParts(acc, parts, rt) <==>
              key in acc || exists j :: 0 <= j < |parts| && Defines(parts[j], key)
    ensures forall i :: LastDefinition(parts, key, i) ==>
              AddParts(acc, parts, rt)[key] == Convert(key, SplitPair(parts[i]).1, rt)
    decreases |parts|
  {
    if |parts| > 0 {
      var acc' := AddPart(acc, parts[0], rt);
      AddPartsLastWins(acc', parts[1..], key, rt);
      if exists j :: 0 <= j < |parts| && Defines(parts[j], key) {
        var j :| 0 <= j < |parts| && Defines(parts[j], key);
        if j > 0 {
          assert Defines(parts[1..][j - 1], key);
        }
      }
      if exists j :: 0 <= j < |parts[1..]| && Defines(parts[1..][j], key) {
        var j :| 0 <= j < |parts[1..]| && Defines(parts[1..][j], key);
        assert Defines(parts[j + 1], key);
      }
      forall i | LastDefinition(parts, key, i)
        ensures AddParts(acc, parts, rt)[key] == Convert(key, SplitPair(parts[i]).1, rt)
      {
        if i > 0 {
          assert LastDefinition(parts[1..], key, i - 1);
        } else {
          assert forall j :: 0 <= j < |parts[1..]| ==> !Defines(parts[1..][j], key);
          AddPartsUntouched(acc', parts[1..], key, rt);
        }
      }
    }
  }

  /** What the tokenizer hands to the rule object: DTSTART from `startAt`; any
      other key present exactly when a part assigns to it, with the value of its
      last assignment. */
  lemma CreateRRuleObjectComponents(rrule: string, startAt: string, rt: PhpRuntime, key: string)
    requires key != "DTSTART"
    ensures var parts := Parts(rrule);
            var c := CreateRRuleObject(rrule, startAt, rt);
            && (key in c <==> exists j :: 0 <= j < |parts| && Defines(parts[j], key))
            && forall i :: LastDefinition(parts, key, i) ==> c[key] == Convert(key, SplitPair(parts[i]).1, rt)
  {
    AddPartsLastWins(map[], Parts(rrule), key, rt);
  }

  /** A BYDAY value is cut into days that join back into the value. */
  lemma ByDayRoundTrip(value: string, rt: PhpRuntime)
    ensures Convert("BYDAY", value, rt).Days?
    ensures Join(Convert("BYDAY", value, rt).days, ",") == value
  {
  }

  /** The usual input, a rule behind a single `RRULE:` prefix, loses the prefix
      and nothing else. */
  lemma PrefixRemoved(body: string)
    requires !Contains(body, "RRULE:")
    ensures RemoveAll("RRULE:" + body, "RRULE:") == body
  {
    assert ("RRULE:" + body)[..6] == "RRULE:";
    assert ("RRULE:" + body)[6..] == body;
    RemoveAllAbsent(body, "RRULE:");
  }

  /** The deletion is one pass: pieces left around a deleted match can meet and
      form a new `RRULE:` that survives. */
  lemma RemovalIsOnePass()
    ensures RemoveAll("RRULRRULE:E:", "RRULE:") == "RRULE:"
  {
    var pat := "RRULE:";
    var s := "RRULRRULE:E:";
    assert s[..6][4] != pat[4];
    assert s[1..][..6][3] != pat[3];
    assert s[2..][..6][2] != pat[2];
    assert s[3..][..6][0] != pat[0];
    assert s[4..][..6] == pat;
    assert s[10..] == "E:";
    assert RemoveAll(s[10..], pat) == "E:";
    assert RemoveAll(s[4..], pat) == "E:";
    assert RemoveAll(s[3..], pat) == [s[3]] + RemoveAll(s[4..], pat);
    assert RemoveAll(s[2..], pat) == [s[2]] + RemoveAll(s[3..], pat);
    assert RemoveAll(s[1..], pat) == [s[1]] + RemoveAll(s[2..], pat);
    assert RemoveAll(s, pat) == [s[0]] + RemoveAll(s[1..], pat);
  }
}

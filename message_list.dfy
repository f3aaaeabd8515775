/** The message list view's helpers: the 12-hour clock label of a message
    and the grouping of messages under date separators. The local hour and
    minute of a timestamp and its date key (`toDateString()`) are inputs. */
module MessageList {
  import opened JsText
  import opened Protocol

  // ---------------------------------------------------------------------
  // formatTime

  /** `hours % 12 || 12`. */
  function DisplayHour(hours: nat): (h: nat)
    ensures 1 <= h <= 12
    ensures h % 12 == hours % 12
  {
    if hours % 12 == 0 then 12 else hours % 12
  }

  /** `hours >= 12 ? 'PM' : 'AM'`. */
  function Meridiem(hours: nat): string
  {
    if hours >= 12 then "PM" else "AM"
  }

  /** `displayHours.toString()`: one or two digits reading an hour from 1
      to 12 that agrees with `hours` modulo 12. */
  function HourField(hours: nat): (h: string)
    ensures 1 <= |h| <= 2 && AllDigits(h) && h[0] != '0'
    ensures 1 <= DecimalValue(h) <= 12
    ensures DecimalValue(h) % 12 == hours % 12
  {
    NatToStringRoundTrip(DisplayHour(hours));
    NatToString(DisplayHour(hours))
  }

  /** `minutes.toString().padStart(2, '0')`: two digits reading `minutes`. */
  function PaddedMinutes(minutes: nat): (p: string)
    requires minutes < 60
    ensures |p| == 2 && AllDigits(p) && DecimalValue(p) == minutes
  {
    NatToStringRoundTrip(minutes);
    var p := PadStart2(NatToString(minutes));
    assert minutes < 10 ==> p[..1] == ['0'] && p[1..] == NatToString(minutes);
    p
  }

  /** Where the parts of `hour:mm ap` sit in the label. */
  lemma LabelLayout(hour: string, mins: string, suffix: string)
    requires |mins| == 2 && |suffix| == 2
    ensures var r := hour + ":" + mins + " " + suffix;
            && |r| == |hour| + 6
            && r[..|r| - 6] == hour
            && r[|r| - 6] == ':'
            && r[|r| - 5..|r| - 3] == mins
            && r[|r| - 3] == ' '
            && r[|r| - 2..] == suffix
  {
  }

  /** The label built from an hour field, a minute field and a suffix that
      meet their contracts meets the label's. */
  lemma LabelFacts(hours: nat, minutes: nat, hour: string, mins: string, ap: string)
    requires 1 <= |hour| <= 2 && AllDigits(hour) && hour[0] != '0'
    requires 1 <= DecimalValue(hour) <= 12 && DecimalValue(hour) % 12 == hours % 12
    requires |mins| == 2 && AllDigits(mins) && DecimalValue(mins) == minutes
    requires ap == if hours >= 12 then "PM" else "AM"
    ensures var r := hour + ":" + mins + " " + ap;
            && (|r| == 7 || |r| == 8)
            && (r[|r| - 2..] == "AM" <==> hours < 12)
            && (r[|r| - 2..] == "PM" <==> hours >= 12)
            && r[|r| - 3] == ' ' && r[|r| - 6] == ':'
            && AllDigits(r[|r| - 5..|r| - 3]) && DecimalValue(r[|r| - 5..|r| - 3]) == minutes
            && AllDigits(r[..|r| - 6]) && r[0] != '0'
            && 1 <= DecimalValue(r[..|r| - 6]) <= 12
            && DecimalValue(r[..|r| - 6]) % 12 == hours % 12
  {
    LabelLayout(hour, mins, ap);
  }

  /** `${displayHours}:${minutes.toString().padStart(2, '0')} ${ampm}` for the
      local hour (0 to 23) and minute (0 to 59) of a timestamp. The label
      ends in a space and the suffix, a colon and exactly two minute digits
      come before that, and the hour in front is between 1 and 12 and agrees
      with `hours` modulo 12. */
  function FormatTime(hours: nat, minutes: nat): (r: string)
    requires hours < 24 && minutes < 60
    ensures |r| == 7 || |r| == 8
    ensures r[|r| - 2..] == "AM" <==> hours < 12
    ensures r[|r| - 2..] == "PM" <==> hours >= 12
    ensures r[|r| - 3] == ' ' && r[|r| - 6] == ':'
    ensures AllDigits(r[|r| - 5..|r| - 3]) && DecimalValue(r[|r| - 5..|r| - 3]) == minutes
    ensures AllDigits(r[..|r| - 6]) && r[0] != '0'
    ensures 1 <= DecimalValue(r[..|r| - 6]) <= 12
    ensures DecimalValue(r[..|r| - 6]) % 12 == hours % 12
  {
    var hour := HourField(hours);
    var mins := PaddedMinutes(minutes);
    LabelFacts(hours, minutes, hour, mins, Meridiem(hours));
    hour + ":" + mins + " " + Meridiem(hours)
  }

  /** Reads a label back into a 24-hour clock time. */
  function ParseTime(text: string): (int, int)
    requires |text| >= 6
  {
    var h12 := DecimalValue(text[..|text| - 6]);
    var pm := text[|text| - 2..] == "PM";
    ((h12 % 12) + (if pm then 12 else 0), DecimalValue(text[|text| - 5..|text| - 3]))
  }

  /** The label loses nothing: hour, minute and half of the day are all
      recovered from it. */
  lemma FormatTimeRoundTrip(hours: nat, minutes: nat)
    requires hours < 24 && minutes < 60
    ensures ParseTime(FormatTime(hours, minutes)) == (hours as int, minutes as int)
  {
    var r := FormatTime(hours, minutes);
    if hours >= 12 {
      assert r[|r| - 2..] == "PM";
      assert hours == 12 + hours % 12;
    } else {
      assert r[|r| - 2..] != "PM";
    }
  }

  // ---------------------------------------------------------------------
  // groupMessagesByDate

  /** The distinct date keys of `msgs`, in order of first occurrence. */
  function DateKeys(msgs: seq<Message>, dateKey: int -> string): seq<string>
  {
    if msgs == [] then []
    else
      var ks := DateKeys(msgs[..|msgs| - 1], dateKey);
      var k := dateKey(msgs[|msgs| - 1].timestamp);
      if k in ks then ks else ks + [k]
  }

  /** No key is listed twice. */
  lemma {:induction false} DateKeysDistinct(msgs: seq<Message>, dateKey: int -> string)
    ensures NoDuplicates(DateKeys(msgs, dateKey))
  {
    if msgs != [] {
      var init := msgs[..|msgs| - 1];
      var ks := DateKeys(init, dateKey);
      DateKeysDistinct(init, dateKey);
      var k := dateKey(msgs[|msgs| - 1].timestamp);
      assert DateKeys(msgs, dateKey) == if k in ks then ks else ks + [k];
      if k !in ks {
        var r := ks + [k];
        forall i, j | 0 <= i < j < |r|
          ensures r[i] != r[j]
        {
          if j < |ks| {
            assert r[i] == ks[i] && r[j] == ks[j];
          } else {
            assert r[i] == ks[i] && r[j] == k;
          }
        }
      }
    }
  }

  /** The keys are exactly the date keys of the messages. */
  lemma {:induction false} DateKeysAreKeysOfMessages(msgs: seq<Message>, dateKey: int -> string)
    ensures forall k :: k in DateKeys(msgs, dateKey) <==> exists i :: 0 <= i < |msgs| && dateKey(msgs[i].timestamp) == k
  {
    if msgs != [] {
      var init := msgs[..|msgs| - 1];
      DateKeysAreKeysOfMessages(init, dateKey);
      assert forall i :: 0 <= i < |init| ==> init[i] == msgs[i];
    }
  }

  /** The messages of `msgs` with date key `k`, in input order. */
  function OnDate(msgs: seq<Message>, dateKey: int -> string, k: string): seq<Message>
  {
    if msgs == [] then []
    else
      var last := msgs[|msgs| - 1];
      OnDate(msgs[..|msgs| - 1], dateKey, k) + (if dateKey(last.timestamp) == k then [last] else [])
  }

  /** A group holds exactly the messages with its date key. */
  lemma {:induction false} OnDateMembers(msgs: seq<Message>, dateKey: int -> string, k: string)
    ensures forall m :: m in OnDate(msgs, dateKey, k) <==> m in msgs && dateKey(m.timestamp) == k
  {
    if msgs != [] {
      var init := msgs[..|msgs| - 1];
      OnDateMembers(init, dateKey, k);
      assert msgs == init + [msgs[|msgs| - 1]];
    }
  }

  /** `keys` and `groups` are the dictionary that grouping `msgs` builds:
      its keys in insertion order, and each key's array. */
  ghost predicate Grouped(keys: seq<string>, groups: map<string, seq<Message>>, msgs: seq<Message>, dateKey: int -> string)
  {
    && keys == DateKeys(msgs, dateKey)
    && (forall k :: k in groups <==> k in keys)
    && (forall k :: k in groups ==> groups[k] == OnDate(msgs, dateKey, k))
  }

  /** One iteration of the loop: an empty array for a new key, then a push. */
  lemma GroupedStep(keys: seq<string>, groups: map<string, seq<Message>>, msgs: seq<Message>, x: Message,
                    keys': seq<string>, groups': map<string, seq<Message>>, msgs': seq<Message>, dateKey: int -> string)
    requires Grouped(keys, groups, msgs, dateKey)
    requires msgs' == msgs + [x]
    requires var k := dateKey(x.timestamp);
             var g := if k in groups then groups else groups[k := []];
             && keys' == (if k in groups then keys else keys + [k])
             && groups' == g[k := g[k] + [x]]
    ensures Grouped(keys', groups', msgs', dateKey)
  {
    var k := dateKey(x.timestamp);
    GroupStep(msgs, x, dateKey);
    if k !in groups {
      NoGroupWithoutKey(msgs, dateKey, k);
    }
  }

  /** `groupMessagesByDate`: a forEach over the messages that creates an
      empty array the first time a date key is seen and pushes each message
      onto its key's array. `keys` is the object's key order (insertion
      order). */
  method GroupMessagesByDate(msgs: seq<Message>, dateKey: int -> string)
    returns (keys: seq<string>, groups: map<string, seq<Message>>)
    ensures keys == DateKeys(msgs, dateKey)
    ensures forall k :: k in groups <==> k in keys
    ensures forall k :: k in groups ==> groups[k] == OnDate(msgs, dateKey, k)
  {
    keys := [];
    groups := map[];
    var i := 0;
    while i < |msgs|
      invariant 0 <= i <= |msgs|
      invariant Grouped(keys, groups, msgs[..i], dateKey)
    {
      var x := msgs[i];
      var k := dateKey(x.timestamp);
      ghost var keys0, groups0 := keys, groups;
      if k !in groups {
        groups := groups[k := []];
        keys := keys + [k];
      }
      groups := groups[k := groups[k] + [x]];
      assert msgs[..i + 1] == msgs[..i] + [x];
      GroupedStep(keys0, groups0, msgs[..i], x, keys, groups, msgs[..i + 1], dateKey);
      i := i + 1;
    }
    assert msgs[..i] == msgs;
  }

  /** How one more message changes the keys and the groups. */
  lemma GroupStep(msgs: seq<Message>, x: Message, dateKey: int -> string)
    ensures var k := dateKey(x.timestamp);
            DateKeys(msgs + [x], dateKey) ==
              if k in DateKeys(msgs, dateKey) then DateKeys(msgs, dateKey) else DateKeys(msgs, dateKey) + [k]
    ensures forall k :: OnDate(msgs + [x], dateKey, k) ==
              OnDate(msgs, dateKey, k) + (if dateKey(x.timestamp) == k then [x] else [])
  {
    assert (msgs + [x])[..|msgs|] == msgs;
  }

  /** A key that no message has has an empty group. */
  lemma {:induction false} NoGroupWithoutKey(msgs: seq<Message>, dateKey: int -> string, k: string)
    requires k !in DateKeys(msgs, dateKey)
    ensures OnDate(msgs, dateKey, k) == []
  {
    if msgs != [] {
      var init := msgs[..|msgs| - 1];
      var ks := DateKeys(init, dateKey);
      assert k !in ks && k != dateKey(msgs[|msgs| - 1].timestamp) by {
        assert DateKeys(msgs, dateKey) == if dateKey(msgs[|msgs| - 1].timestamp) in ks then ks else ks + [dateKey(msgs[|msgs| - 1].timestamp)];
      }
      NoGroupWithoutKey(init, dateKey, k);
    }
  }

  /** Every group shown under a date separator has at least one message. */
  lemma {:induction false} GroupsNonEmpty(msgs: seq<Message>, dateKey: int -> string, k: string)
    requires k in DateKeys(msgs, dateKey)
    ensures OnDate(msgs, dateKey, k) != []
  {
    DateKeysAreKeysOfMessages(msgs, dateKey);
    var i :| 0 <= i < |msgs| && dateKey(msgs[i].timestamp) == k;
    OnDateMembers(msgs, dateKey, k);
    assert msgs[i] in OnDate(msgs, dateKey, k);
  }

  /** Grouping the concatenation of two runs of messages puts the first
      run's messages of a date before the second run's: the input's relative
      order is kept inside every group. */
  lemma {:induction false} OnDateAppend(a: seq<Message>, b: seq<Message>, dateKey: int -> string, k: string)
    ensures OnDate(a + b, dateKey, k) == OnDate(a, dateKey, k) + OnDate(b, dateKey, k)
    decreases |b|
  {
    if b == [] {
      assert a + b == a;
    } else {
      var init := b[..|b| - 1];
      assert (a + b)[..|a + b| - 1] == a + init;
      OnDateAppend(a, init, dateKey, k);
    }
  }

  /** Keys of an earlier run of messages come first, in the same order:
      keys are listed by first occurrence. */
  lemma {:induction false} DateKeysPrefix(a: seq<Message>, b: seq<Message>, dateKey: int -> string)
    ensures DateKeys(a, dateKey) <= DateKeys(a + b, dateKey)
    decreases |b|
  {
    if b == [] {
      assert a + b == a;
    } else {
      var init := b[..|b| - 1];
      assert (a + b)[..|a + b| - 1] == a + init;
      DateKeysPrefix(a, init, dateKey);
    }
  }

  /** The sizes of the groups of `keys`. */
  function GroupSizes(keys: seq<string>, msgs: seq<Message>, dateKey: int -> string): nat
  {
    if keys == [] then 0
    else GroupSizes(keys[..|keys| - 1], msgs, dateKey) + |OnDate(msgs, dateKey, keys[|keys| - 1])|
  }

  /** One more message adds one to the group of its key and nothing to the
      others. */
  lemma {:induction false} GroupSizesStep(keys: seq<string>, msgs: seq<Message>, x: Message, dateKey: int -> string)
    requires NoDuplicates(keys)
    ensures GroupSizes(keys, msgs + [x], dateKey) ==
            GroupSizes(keys, msgs, dateKey) + (if dateKey(x.timestamp) in keys then 1 else 0)
  {
    if keys != [] {
      var init := keys[..|keys| - 1];
      var last := keys[|keys| - 1];
      assert (msgs + [x])[..|msgs|] == msgs;
      GroupSizesStep(init, msgs, x, dateKey);
      assert dateKey(x.timestamp) in keys <==> dateKey(x.timestamp) in init || dateKey(x.timestamp) == last;
      assert last !in init;
    }
  }

  /** Every message is in exactly one group: the group sizes add up to the
      number of messages. */
  lemma {:induction false} GroupSizesTotal(msgs: seq<Message>, dateKey: int -> string)
    ensures GroupSizes(DateKeys(msgs, dateKey), msgs, dateKey) == |msgs|
  {
    if msgs != [] {
      var init := msgs[..|msgs| - 1];
      var x := msgs[|msgs| - 1];
      var k := dateKey(x.timestamp);
      var ks := DateKeys(init, dateKey);
      assert msgs == init + [x];
      GroupSizesTotal(init, dateKey);
      DateKeysDistinct(init, dateKey);
      GroupSizesStep(ks, init, x, dateKey);
      if k !in ks {
        NoGroupWithoutKey(init, dateKey, k);
        assert (ks + [k])[..|ks|] == ks;
      }
    }
  }
}

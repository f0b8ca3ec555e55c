/**
  Concrete runs of the filters and of the device list, on the device sets
  the library's own unit tests use.
*/
module Scenarios {
  import opened Common
  import opened Events
  import opened Devices
  import opened SearchRequest

  const A1: Handle := Handle("A1")
  const A2: Handle := Handle("A2")
  const A3: Handle := Handle("A3")
  const A4: Handle := Handle("A4")

  /** Four devices: two names starting with "PAX", two raw signals above 50 after normalising. */
  function Mixed(): (ds: seq<Device>)
    ensures |ds| == 4
  {
    [Device(A1, "MP", -56), Device(A2, "PAX123", -43), Device(A3, "MP2", 51), Device(A4, "PAX324", 12)]
  }

  /** What `Keep` contributes for one device. */
  function KeptOne(f: Filters, d: Device): seq<Device> {
    if Accepts(f, d) then [d] else []
  }

  /** `Keep` decides on the first device, then goes on with the rest. */
  lemma KeepCons(f: Filters, ds: seq<Device>)
    requires ds != []
    ensures Keep(f, ds) == KeptOne(f, ds[0]) + Keep(f, ds[1..])
  {
  }

  /** `Keep` over four devices, one decision per device. */
  lemma KeepFour(f: Filters, ds: seq<Device>)
    requires |ds| == 4
    ensures Keep(f, ds) == KeptOne(f, ds[0]) + KeptOne(f, ds[1]) + KeptOne(f, ds[2]) + KeptOne(f, ds[3])
  {
    var d1 := ds[1..];
    var d2 := d1[1..];
    var d3 := d2[1..];
    assert d1[0] == ds[1] && d2[0] == ds[2] && d3[0] == ds[3] && d3[1..] == [];
    KeepCons(f, ds);
    KeepCons(f, d1);
    KeepCons(f, d2);
    KeepCons(f, d3);
    assert KeptOne(f, ds[3]) + [] == KeptOne(f, ds[3]);
    AppendAssoc(KeptOne(f, ds[0]), KeptOne(f, ds[1]), KeptOne(f, ds[2]) + KeptOne(f, ds[3]));
    AppendAssoc(KeptOne(f, ds[0]) + KeptOne(f, ds[1]), KeptOne(f, ds[2]), KeptOne(f, ds[3]));
  }

  /** A signal threshold of 50 keeps -43 (read as 57) and 51, and drops -56 (44) and 12. */
  lemma SignalFilterKeepsTwo()
    ensures Keep(Filters(None, 50), Mixed()) == [Device(A2, "PAX123", -43), Device(A3, "MP2", 51)]
  {
    var f := Filters(None, 50);
    var ds := Mixed();
    assert !Accepts(f, ds[0]) && Accepts(f, ds[1]) by {
      assert Normalise(-56) == 44 && Normalise(-43) == 57;
    }
    assert Accepts(f, ds[2]) && !Accepts(f, ds[3]);
    KeepFour(f, ds);
    assert [] + [ds[1]] + [ds[2]] + [] == [ds[1], ds[2]];
  }

  /** Which of the mixed devices the prefix "PAX" accepts. */
  lemma PrefixDecisions()
    ensures var f := Filters(Some("PAX"), 0);
            var ds := Mixed();
            !Accepts(f, ds[0]) && Accepts(f, ds[1]) && !Accepts(f, ds[2]) && Accepts(f, ds[3])
  {
    assert "MP2"[0] != "PAX"[0];
    assert "PAX" <= "PAX123" && "PAX" <= "PAX324";
  }

  /** The prefix "PAX" keeps the two devices whose names start with it. */
  lemma PrefixFilterKeepsTwo()
    ensures Keep(Filters(Some("PAX"), 0), Mixed()) == [Device(A2, "PAX123", -43), Device(A4, "PAX324", 12)]
  {
    var f := Filters(Some("PAX"), 0);
    var ds := Mixed();
    PrefixDecisions();
    KeepFour(f, ds);
    assert [] + [ds[1]] + [] + [ds[3]] == [ds[1], ds[3]];
  }

  /** Both filters together keep only the device that each keeps. */
  lemma BothFiltersKeepOne()
    ensures Keep(Filters(Some("PAX"), 50), Mixed()) == [Device(A2, "PAX123", -43)]
  {
    var f := Filters(Some("PAX"), 50);
    var ds := Mixed();
    assert !Accepts(f, ds[0]) && !Accepts(f, ds[2]) by {
      assert "MP2"[0] != "PAX"[0];
    }
    assert Accepts(f, ds[1]) by {
      assert Normalise(-43) == 57;
      assert "PAX" <= "PAX123";
    }
    assert !Accepts(f, ds[3]);
    KeepFour(f, ds);
    assert [] + [ds[1]] + [] + [] == [ds[1]];
  }

  /** A device broadcast without a signal reads as -99, which normalises to 1 and fails any positive threshold above 0. */
  lemma MissingSignalIsWeak(h: Handle, threshold: Short)
    requires threshold > 0
    ensures FromEvent(DeviceEvent(DeviceFound, h)).Ok?
    ensures !Accepts(Filters(None, threshold), FromEvent(DeviceEvent(DeviceFound, h)).value)
  {
    assert Normalise(-99) == 1;
  }

  /** Collecting a device, then the rest. */
  lemma CollectAllCons(list: seq<Device>, d: Device, rest: seq<Device>)
    ensures CollectAll(list, [d] + rest) == CollectAll(Collect(list, d), rest)
  {
    assert ([d] + rest)[0] == d && ([d] + rest)[1..] == rest;
  }

  /** A device with a new address is appended. */
  lemma CollectNew(list: seq<Device>, d: Device)
    requires forall j :: 0 <= j < |list| ==> list[j].details.address != d.details.address
    ensures Collect(list, d) == list + [d]
  {
    assert d.details.address !in Addresses(list);
  }

  /** A device with the first entry's address replaces it. */
  lemma ReplaceFirst(a: Device, b: Device, d: Device)
    requires a.details.address == d.details.address
    ensures Collect([a, b], d) == [d, b]
  {
    assert IndexOf([a, b], d.details.address) == 0;
    assert [a, b][0 := d] == [d, b];
  }

  /** A device with the second entry's address, and not the first's, replaces the second. */
  lemma ReplaceSecond(a: Device, b: Device, d: Device)
    requires a.details.address != d.details.address && b.details.address == d.details.address
    ensures Collect([a, b], d) == [a, d]
  {
    var list := [a, b];
    assert list[1..] == [b];
    assert IndexOf(list, d.details.address) == 1;
    assert list[1 := d] == [a, d];
  }

  /** The sequence of sightings in the test "Do not repeat devices". */
  const D1: Device := Device(A1, "MP", -56)
  const D2: Device := Device(A2, "PAX123", -43)
  const D3: Device := Device(A1, "MP", 51)
  const D4: Device := Device(A2, "PAX123", 12)
  const D5: Device := Device(A3, "MP", 70)

  lemma FirstSightingOfA1()
    ensures CollectAll([], [D1, D2, D3, D4, D5]) == CollectAll([D1], [D2, D3, D4, D5])
  {
    assert [D1, D2, D3, D4, D5] == [D1] + [D2, D3, D4, D5];
    CollectAllCons([], D1, [D2, D3, D4, D5]);
    CollectNew([], D1);
    assert [] + [D1] == [D1];
  }

  lemma FirstSightingOfA2()
    ensures CollectAll([D1], [D2, D3, D4, D5]) == CollectAll([D1, D2], [D3, D4, D5])
  {
    assert CollectAll([D1], [D2, D3, D4, D5]) == CollectAll(Collect([D1], D2), [D3, D4, D5]) by {
      assert [D2, D3, D4, D5] == [D2] + [D3, D4, D5];
      CollectAllCons([D1], D2, [D3, D4, D5]);
    }
    assert Collect([D1], D2) == [D1, D2] by {
      assert "A1"[1] != "A2"[1];
      CollectNew([D1], D2);
      assert [D1] + [D2] == [D1, D2];
    }
  }

  lemma SecondSightingOfA1()
    ensures CollectAll([D1, D2], [D3, D4, D5]) == CollectAll([D3, D2], [D4, D5])
  {
    assert CollectAll([D1, D2], [D3, D4, D5]) == CollectAll(Collect([D1, D2], D3), [D4, D5]) by {
      assert [D3, D4, D5] == [D3] + [D4, D5];
      CollectAllCons([D1, D2], D3, [D4, D5]);
    }
    ReplaceFirst(D1, D2, D3);
  }

  lemma SecondSightingOfA2()
    ensures CollectAll([D3, D2], [D4, D5]) == CollectAll([D3, D4], [D5])
  {
    assert CollectAll([D3, D2], [D4, D5]) == CollectAll(Collect([D3, D2], D4), [D5]) by {
      assert [D4, D5] == [D4] + [D5];
      CollectAllCons([D3, D2], D4, [D5]);
    }
    assert "A1"[1] != "A2"[1];
    ReplaceSecond(D3, D2, D4);
  }

  lemma LastSighting()
    ensures CollectAll([D3, D4], [D5]) == [D3, D4, D5]
  {
    assert [D5] == [D5] + [];
    CollectAllCons([D3, D4], D5, []);
    CollectNew([D3, D4], D5);
    assert [D3, D4] + [D5] == [D3, D4, D5];
  }

  /** Seeing the same addresses again replaces their entries in place: three entries, with the latest signals. */
  lemma RepeatedDevicesAreReplaced()
    ensures CollectAll([], [D1, D2, D3, D4, D5]) == [Device(A1, "MP", 51), Device(A2, "PAX123", 12), Device(A3, "MP", 70)]
  {
    FirstSightingOfA1();
    FirstSightingOfA2();
    SecondSightingOfA1();
    SecondSightingOfA2();
    LastSighting();
  }
}

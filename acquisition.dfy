/** Finding the probe among the enumerated USB devices. */
module Acquisition {
  import opened Config

  /** The part of a USB device descriptor the search looks at. */
  datatype Descriptor = Descriptor(idVendor: bv16, idProduct: bv16)

  /** What asking the transport for one device's descriptor returned. */
  datatype Query = Answered(descriptor: Descriptor) | QueryFailed

  /** Outcome of one pass over the device list. */
  datatype Scan = Found(index: nat) | NotFound | DescriptorFailed

  /** The device is the Black Magic Probe: vendor and product both match. */
  predicate IsProbe(d: Descriptor) {
    d.idVendor == Vendor && d.idProduct == Product
  }

  /** The search passes over this device: its descriptor was read and it is
      not the probe. */
  predicate Skipped(q: Query) {
    q.Answered? && !IsProbe(q.descriptor)
  }

  /** The search over the listing, in listing order: stop at the first
      descriptor that cannot be read or the first probe. */
  function FirstMatch(devs: seq<Query>): (r: Scan)
    // a selected index names a listed device that is the probe
    ensures r.Found? ==> r.index < |devs| && devs[r.index].Answered? && IsProbe(devs[r.index].descriptor)
    // the search gives up only on a descriptor query that failed
    ensures r.DescriptorFailed? ==> exists i :: 0 <= i < |devs| && devs[i].QueryFailed?
    decreases |devs|
  {
    if devs == [] then NotFound
    else match devs[0]
      case QueryFailed => DescriptorFailed
      case Answered(d) =>
        if IsProbe(d) then Found(0)
        else match FirstMatch(devs[1..])
          case Found(i) => Found(i + 1)
          case other => other
  }

  /** The search selects device `i` exactly when device `i` is a probe and
      every device before it was read and is not one: the lowest matching
      index wins. */
  lemma {:induction false} FirstMatchFound(devs: seq<Query>, i: nat)
    ensures FirstMatch(devs) == Found(i) <==>
              i < |devs| && devs[i].Answered? && IsProbe(devs[i].descriptor) &&
              forall j :: 0 <= j < i ==> Skipped(devs[j])
    decreases |devs|
  {
    if devs != [] && Skipped(devs[0]) {
      var tail := devs[1..];
      if i > 0 {
        FirstMatchFound(tail, i - 1);
        assert forall j :: 0 <= j < |tail| ==> tail[j] == devs[j + 1];
      }
      match FirstMatch(devs[1..])
      case Found(k) =>
      case NotFound =>
      case DescriptorFailed =>
    }
  }

  /** The search finds nothing exactly when every descriptor was read and
      none is the probe. */
  lemma {:induction false} FirstMatchNotFound(devs: seq<Query>)
    ensures FirstMatch(devs) == NotFound <==> forall j :: 0 <= j < |devs| ==> Skipped(devs[j])
    decreases |devs|
  {
    if devs != [] && Skipped(devs[0]) {
      FirstMatchNotFound(devs[1..]);
      assert forall j :: 1 <= j < |devs| ==> devs[j] == devs[1..][j - 1];
    }
  }

  /** The search gives up on a descriptor failure exactly when some
      descriptor could not be read and every device before it was read and
      is not the probe. */
  lemma {:induction false} FirstMatchFailed(devs: seq<Query>)
    ensures FirstMatch(devs) == DescriptorFailed <==>
              exists i :: 0 <= i < |devs| && devs[i].QueryFailed? &&
                          forall j :: 0 <= j < i ==> Skipped(devs[j])
    decreases |devs|
  {
    if devs != [] {
      if Skipped(devs[0]) {
        FirstMatchFailed(devs[1..]);
        var tail := devs[1..];
        if FirstMatch(tail) == DescriptorFailed {
          var i :| 0 <= i < |tail| && tail[i].QueryFailed? && forall j :: 0 <= j < i ==> Skipped(tail[j]);
          assert devs[i + 1].QueryFailed?;
          assert forall j :: 0 <= j < i + 1 ==> Skipped(devs[j]) by {
            forall j | 0 <= j < i + 1 ensures Skipped(devs[j]) {
              if j > 0 { assert devs[j] == tail[j - 1]; }
            }
          }
        } else {
          forall i | 0 <= i < |devs| && devs[i].QueryFailed?
            ensures !forall j :: 0 <= j < i ==> Skipped(devs[j])
          {
            if forall j :: 0 <= j < i ==> Skipped(devs[j]) {
              assert i > 0;
              assert tail[i - 1].QueryFailed?;
              assert forall j :: 0 <= j < i - 1 ==> Skipped(tail[j]) by {
                forall j | 0 <= j < i - 1 ensures Skipped(tail[j]) { assert tail[j] == devs[j + 1]; }
              }
            }
          }
        }
      }
    }
  }

  /** The scan of the listing (the `for` over `devs`): queries each device's
      descriptor in listing order, gives up on the first query that fails,
      and stops at the first probe. */
  method FindProbe(devs: seq<Query>) returns (r: Scan)
    ensures r == FirstMatch(devs)
    ensures r.Found? ==> r.index < |devs| && devs[r.index].Answered? && IsProbe(devs[r.index].descriptor) &&
                         forall j :: 0 <= j < r.index ==> Skipped(devs[j])
    ensures r.NotFound? ==> forall j :: 0 <= j < |devs| ==> Skipped(devs[j])
  {
    var i := 0;
    while i < |devs|
      invariant i <= |devs|
      invariant forall j :: 0 <= j < i ==> Skipped(devs[j])
    {
      match devs[i]
      case QueryFailed =>
        FirstMatchFailed(devs);
        return DescriptorFailed;
      case Answered(desc) =>
        if IsProbe(desc) {
          FirstMatchFound(devs, i);
          return Found(i);
        }
      i := i + 1;
    }
    FirstMatchNotFound(devs);
    return NotFound;
  }
}

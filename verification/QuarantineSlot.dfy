/** One node's live quarantined set and the two ways it changes: adoption of a set
    that carries an epoch, and a local arm that carries none. */
module QuarantineSlot {
  import opened Prelude

  /** The quarantine part of a node's locked snapshot. `etag` is the listing etag
      recorded by the last poll; `unpublished` says the set carries a local arm that
      the epoch does not name. */
  datatype Slot = Slot(names: set<string>, epoch: nat, etag: Option<nat>, unpublished: bool)

  const FRESH := Slot({}, 0, None, false)

  /** Why an adoption kept the live set. */
  datatype Refused = No | Older(live: nat) | PendingArm

  function Verdict(slot: Slot, names: set<string>, epoch: nat): Refused {
    if epoch < slot.epoch then Older(slot.epoch)
    else if epoch == slot.epoch && slot.unpublished && names != slot.names then PendingArm
    else No
  }

  /** The slot after offering it `(names, epoch)`. `etag` is the listing etag to
      record, recorded on a refusal too; `None` keeps the recorded one. */
  function Adopt(slot: Slot, names: set<string>, epoch: nat, etag: Option<Option<nat>>): Slot {
    var tag := if etag.Some? then etag.value else slot.etag;
    if Verdict(slot, names, epoch).No? then Slot(names, epoch, tag, false) else slot.(etag := tag)
  }

  /** `names` with `name` put in or taken out. */
  function With(names: set<string>, name: string, blocked: bool): set<string> {
    if blocked then names + {name} else names - {name}
  }

  /** The slot after arming (or disarming) one name locally. */
  function Arm(slot: Slot, name: string, blocked: bool): Slot {
    if (name in slot.names) == blocked then slot
    else slot.(names := With(slot.names, name, blocked), unpublished := true)
  }
}

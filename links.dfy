/** The two membership link tables, `clinic_doctors` and `clinic_patients`:
    each a set of (clinic_id, member_id) pairs whose primary key is the pair
    itself, so a pair is either present once or absent. */
module Links {
  import opened Common

  type LinkTable = set<(Id, Id)>

  /** The assign endpoints: insert the pair only when it is absent. */
  function Link(links: LinkTable, clinicId: Id, memberId: Id): (r: LinkTable)
    ensures forall l :: l in r <==> l in links || l == (clinicId, memberId)
    ensures (clinicId, memberId) in links ==> r == links
  {
    if (clinicId, memberId) in links then links else links + {(clinicId, memberId)}
  }

  /** The unassign endpoints: delete the one pair, present or not. */
  function Unlink(links: LinkTable, clinicId: Id, memberId: Id): (r: LinkTable)
    ensures forall l :: l in r <==> l in links && l != (clinicId, memberId)
    ensures (clinicId, memberId) !in links ==> r == links
  {
    links - {(clinicId, memberId)}
  }

  /** The delete endpoints: drop every link of one member, whatever the clinic. */
  function DropMember(links: LinkTable, memberId: Id): (r: LinkTable)
    ensures forall l :: l in r <==> l in links && l.1 != memberId
    ensures forall c :: (c, memberId) !in r
  {
    set l | l in links && l.1 != memberId
  }

  /** Linking twice is linking once; unlinking undoes a link that was not
      there before; and dropping a member forgets any link just made for it. */
  lemma LinkLaws(links: LinkTable, clinicId: Id, memberId: Id)
    ensures Link(Link(links, clinicId, memberId), clinicId, memberId) == Link(links, clinicId, memberId)
    ensures Unlink(Link(links, clinicId, memberId), clinicId, memberId) == Unlink(links, clinicId, memberId)
    ensures (clinicId, memberId) !in links ==> Unlink(Link(links, clinicId, memberId), clinicId, memberId) == links
    ensures Link(Unlink(links, clinicId, memberId), clinicId, memberId) == Link(links, clinicId, memberId)
    ensures DropMember(Link(links, clinicId, memberId), memberId) == DropMember(links, memberId)
    ensures DropMember(DropMember(links, memberId), memberId) == DropMember(links, memberId)
  {
  }

  /** The members of one clinic, as the join on the link table finds them. */
  predicate InClinic(links: LinkTable, clinicId: Option<Id>, memberId: Id) {
    Truthy(clinicId) ==> (clinicId.value, memberId) in links
  }
}

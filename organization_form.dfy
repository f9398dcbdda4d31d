/** The organization settings form: its three fields, the slug that follows
    the name until it is edited by hand, and the form data it submits. */
module OrganizationForm {
  import opened Common
  import opened Slugs
  import Organizations

  /** The form data `handleSubmit` builds from the fields. */
  function Submitted(name: string, slug: string, whatsappNumber: string): Form
  {
    map["name" := name, "slug" := slug, "whatsappNumber" := whatsappNumber]
  }

  /** How the update action reads the submitted form: name and slug count
      as given when not empty, and an empty number is no number. */
  lemma SubmittedReadBack(name: string, slug: string, whatsappNumber: string)
    ensures Organizations.Filled(Submitted(name, slug, whatsappNumber), "name") <==> name != ""
    ensures Organizations.Filled(Submitted(name, slug, whatsappNumber), "slug") <==> slug != ""
    ensures Organizations.SubmittedWhatsapp(Submitted(name, slug, whatsappNumber))
            == if whatsappNumber == "" then None else Some(whatsappNumber)
  {
    var f := Submitted(name, slug, whatsappNumber);
    assert f["name"] == name && f["slug"] == slug && f["whatsappNumber"] == whatsappNumber;
  }

  /** The `formData` state of the form. */
  class ProfileForm {
    var name: string
    var slug: string
    var whatsappNumber: string

    /** The fields start from the stored organization; no number is "". */
    constructor (org: Organizations.Organization)
      ensures name == org.name && slug == org.slug
      ensures whatsappNumber == if org.whatsappNumber.Some? then org.whatsappNumber.value else ""
    {
      name := org.name;
      slug := org.slug;
      whatsappNumber := if org.whatsappNumber.Some? then org.whatsappNumber.value else "";
    }

    /** The slug is still what `generateSlug` makes of the name. */
    predicate SlugFollowsName()
      reads this
    {
      slug == GenerateSlug(name)
    }

    /** The name always changes; the slug is regenerated only while it still
        follows the old name, so a hand-edited slug is kept and an automatic
        one keeps following. */
    method HandleNameChange(newName: string)
      modifies this
      ensures name == newName && whatsappNumber == old(whatsappNumber)
      ensures slug == if old(slug) == GenerateSlug(old(name)) then GenerateSlug(newName) else old(slug)
      ensures old(SlugFollowsName()) ==> SlugFollowsName()
      ensures !old(SlugFollowsName()) ==> slug == old(slug)
    {
      slug := if slug == GenerateSlug(name) then GenerateSlug(newName) else slug;
      name := newName;
    }

    method HandleSlugChange(value: string)
      modifies this
      ensures slug == value && name == old(name) && whatsappNumber == old(whatsappNumber)
    {
      slug := value;
    }

    method HandleWhatsappChange(value: string)
      modifies this
      ensures whatsappNumber == value && name == old(name) && slug == old(slug)
    {
      whatsappNumber := value;
    }

    /** `handleSubmit` appends the three fields as they are. */
    method HandleSubmit() returns (form: Form)
      ensures form == Submitted(name, slug, whatsappNumber)
      ensures Organizations.Filled(form, "name") <==> name != ""
      ensures Organizations.SubmittedWhatsapp(form) == if whatsappNumber == "" then None else Some(whatsappNumber)
    {
      form := Submitted(name, slug, whatsappNumber);
      SubmittedReadBack(name, slug, whatsappNumber);
    }
  }
}

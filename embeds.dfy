/**
 * The part of the chat library's embed builder that the paginator writes to:
 * an optional footer text, a description and an ordered list of fields.
 */
module Embeds {
  import opened Wrappers

  /** The most fields an embed may hold. */
  const MaxFieldCount: nat := 25

  /** One (name, value) row of an embed; `isInline` says whether it is laid out beside its neighbours. */
  datatype Field = Field(name: string, value: string, isInline: bool)

  class EmbedBuilder {
    /** The footer's text; `None` when the embed has no footer. */
    var footer: Option<string>
    var description: string
    var fields: seq<Field>

    /** The builder refuses a field list longer than `MaxFieldCount`. */
    predicate Valid()
      reads this
    {
      |fields| <= MaxFieldCount
    }

    constructor ()
      ensures Valid()
      ensures footer == None && description == "" && fields == []
    {
      footer := None;
      description := "";
      fields := [];
    }

    /** Replaces the footer with one that shows `text`. */
    method WithFooter(text: string)
      requires Valid()
      modifies this
      ensures Valid()
      ensures footer == Some(text)
      ensures description == old(description) && fields == old(fields)
    {
      footer := Some(text);
    }

    method WithDescription(text: string)
      requires Valid()
      modifies this
      ensures Valid()
      ensures description == text
      ensures footer == old(footer) && fields == old(fields)
    {
      description := text;
    }

    /** Assigns the whole field list. */
    method SetFields(rows: seq<Field>)
      requires |rows| <= MaxFieldCount
      modifies this
      ensures Valid()
      ensures fields == rows
      ensures footer == old(footer) && description == old(description)
    {
      fields := rows;
    }
  }
}

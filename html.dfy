/** The parsed document, reduced to what the scrapers select from it.

    BeautifulSoup and its CSS selection are not modelled: a page is given as
    the element lists a selector would return, in document order. */
module Html {
  import opened Wrappers

  /** An `<input>` or `<select>` element: its `type`, `name` and `value`
      attributes, each absent or present. */
  datatype Control = Control(typ: Option<string>, name: Option<string>, value: Option<string>)

  /** A `<form>`: its `action` attribute, then its `<input>` and `<select>`
      descendants (`form.find_all('input')`, `form.find_all('select')`). */
  datatype HtmlForm = HtmlForm(action: Option<string>, inputs: seq<Control>, selects: seq<Control>)

  /** An `<a>` element: its text, its `href` attribute, and the texts of the
      `<td>` cells of its enclosing `<tr>` (None when `find_parent('tr')` finds
      no row). */
  datatype Anchor = Anchor(text: string, href: Option<string>, row: Option<seq<string>>)
}

/**
 * The request handler of index.php over the `items` table. The table is an
 * abstract map from id to row plus the AUTO_INCREMENT counter; a POST that
 * writes answers with a redirect, every other request renders the page
 * (validation errors, notice, success banner, the form, the listing newest
 * first, and the two totals).
 */
module Inventory {
  import opened Wrappers
  import opened Text
  import opened Form

  datatype HttpMethod = Post | OtherMethod

  /** `$_SERVER['REQUEST_METHOD']`, `$_GET` and the submitted form. */
  datatype Request = Request(verb: HttpMethod, query: map<string, string>, form: map<string, string>)

  /** `$_POST`: empty unless the request is a POST. */
  function PostData(req: Request): map<string, string> {
    if req.verb == Post then req.form else map[]
  }

  /** The mutable columns of an `items` row (timestamps are not modelled). */
  datatype Fields = Fields(name: string, category: Option<string>, quantity: Option<int>, price: Option<string>)

  datatype Item = Item(id: int, fields: Fields)

  /** A row as this handler writes it: a trimmed non-empty name, no blank optional, a valid quantity and price. */
  predicate WellFormed(f: Fields) {
    && f.name != "" && Trim(f.name) == f.name
    && (f.category.Some? ==> f.category.value != "" && Trim(f.category.value) == f.category.value)
    && (f.quantity.Some? ==> f.quantity.value >= 0)
    && (f.price.Some? ==> PriceShape(f.price.value))
  }

  predicate AllWellFormed(rows: map<int, Fields>) {
    forall id :: id in rows ==> WellFormed(rows[id])
  }

  /** Lines 101-103: blank optional fields become null, the quantity is cast. */
  function Normalize(s: Submission): Fields {
    Fields(
      s.name,
      BlankToNull(s.category),
      if s.quantity == "" then None else Some(IntCast(s.quantity)),
      BlankToNull(s.price))
  }

  lemma PriceShapeIsTrimmed(p: string)
    requires PriceShape(p)
    ensures p != "" && Trim(p) == p
  {
    if !CtypeDigit(p) {
      var i :| 0 < i < |p| && p[i] == '.' && CtypeDigit(p[..i]) && 1 <= |p| - i - 1 <= 2 && AllDigits(p[i + 1..]);
      assert p[0] == p[..i][0];
      assert p[|p| - 1] == p[i + 1..][|p| - i - 2];
    }
    TrimOfTrimmed(p);
  }

  /** A trimmed submission that passes validation is stored as a well-formed row. */
  lemma AcceptedIsWellFormed(s: Submission)
    requires Trimmed(s) && Acceptable(s)
    ensures WellFormed(Normalize(s))
  {
    QuantityAcceptedIff(s.quantity);
    if s.quantity != "" {
      CastOfDigits(s.quantity);
    }
    TrimmedPriceAccepted(s.price);
  }

  /** Writing a well-formed row keeps the whole table well-formed. */
  lemma StoreKeepsWellFormed(rows: map<int, Fields>, id: int, f: Fields)
    requires AllWellFormed(rows) && WellFormed(f)
    ensures AllWellFormed(rows[id := f])
  {
    var stored := rows[id := f];
    forall k | k in stored
      ensures WellFormed(stored[k])
    {
      if k != id {
        assert stored[k] == rows[k];
      }
    }
  }

  // ------------------------------------------------------------ the listing

  /** The rows with ids from `hi` down to 1, newest first (`ORDER BY id DESC`). */
  function ListDown(rows: map<int, Fields>, hi: int): (r: seq<Item>)
    ensures forall i, j :: 0 <= i < j < |r| ==> r[i].id > r[j].id
    ensures forall it :: it in r ==> 1 <= it.id <= hi && it.id in rows && rows[it.id] == it.fields
    ensures forall id :: id in rows && 1 <= id <= hi ==> Item(id, rows[id]) in r
    decreases hi
  {
    if hi < 1 then []
    else
      var rest := ListDown(rows, hi - 1);
      if hi in rows then [Item(hi, rows[hi])] + rest else rest
  }

  function Listing(rows: map<int, Fields>, nextId: int): seq<Item> {
    ListDown(rows, nextId - 1)
  }

  function IdsUpTo(rows: map<int, Fields>, hi: int): set<int> {
    set id | id in rows && 1 <= id <= hi
  }

  lemma IdsUpToStep(rows: map<int, Fields>, hi: int)
    requires hi >= 1
    ensures hi !in IdsUpTo(rows, hi - 1)
    ensures IdsUpTo(rows, hi) == if hi in rows then IdsUpTo(rows, hi - 1) + {hi} else IdsUpTo(rows, hi - 1)
  {
  }

  /** The listing has one entry per row. */
  lemma {:induction false} ListDownLength(rows: map<int, Fields>, hi: int)
    ensures |ListDown(rows, hi)| == |IdsUpTo(rows, hi)|
    decreases hi
  {
    if hi >= 1 {
      ListDownLength(rows, hi - 1);
      IdsUpToStep(rows, hi);
    } else {
      assert IdsUpTo(rows, hi) == {};
    }
  }

  /** The listing only depends on the rows with ids from 1 to `hi`. */
  lemma {:induction false} ListDownAgrees(a: map<int, Fields>, b: map<int, Fields>, hi: int)
    requires forall id :: 1 <= id <= hi ==> (id in a <==> id in b)
    requires forall id :: 1 <= id <= hi && id in a ==> a[id] == b[id]
    ensures ListDown(a, hi) == ListDown(b, hi)
    decreases hi
  {
    if hi >= 1 {
      ListDownAgrees(a, b, hi - 1);
    }
  }

  /** A created row heads the listing, above the rows listed before. */
  lemma CreatedRowListedFirst(rows: map<int, Fields>, nextId: int, f: Fields)
    requires 1 <= nextId && forall id :: id in rows ==> 1 <= id < nextId
    ensures Listing(rows[nextId := f], nextId + 1) == [Item(nextId, f)] + Listing(rows, nextId)
  {
    ListDownAgrees(rows[nextId := f], rows, nextId - 1);
  }

  /** `(int) ($item['quantity'] ?? 0)`. */
  function QuantityOf(it: Item): int {
    it.fields.quantity.GetOr(0)
  }

  /** The sum of the quantities, null counting as 0. */
  function SumQuantities(items: seq<Item>): int {
    if items == [] then 0 else SumQuantities(items[..|items| - 1]) + QuantityOf(items[|items| - 1])
  }

  /** With no negative quantity the total is not negative either. */
  lemma {:induction false} SumQuantitiesNonNegative(items: seq<Item>)
    requires forall it :: it in items ==> QuantityOf(it) >= 0
    ensures SumQuantities(items) >= 0
  {
    if items != [] {
      assert forall it :: it in items[..|items| - 1] ==> it in items;
      SumQuantitiesNonNegative(items[..|items| - 1]);
    }
  }

  /** Lines 175-178: the `foreach` that adds up the quantities. */
  method TotalQuantity(items: seq<Item>) returns (total: int)
    ensures total == SumQuantities(items)
  {
    total := 0;
    for i := 0 to |items|
      invariant total == SumQuantities(items[..i])
    {
      assert items[..i + 1][..i] == items[..i];
      total := total + QuantityOf(items[i]);
    }
    assert items[..|items|] == items;
  }

  // ------------------------------------------------------- the page model

  datatype SuccessKind = Created | Updated | Deleted

  /** The `success` query value each redirect carries (`Location: index.php?success=...`). */
  function KindText(k: SuccessKind): string {
    match k
    case Created => "created"
    case Updated => "updated"
    case Deleted => "deleted"
  }

  /** Lines 217-224: the banner for a truthy `success` value. */
  function BannerText(success: string): string {
    if success == "created" then "Item created successfully."
    else if success == "updated" then "Item updated successfully."
    else if success == "deleted" then "Item deleted successfully."
    else "Action completed."
  }

  /** `$success = $_GET['success'] ?? null; if ($success) ...`. */
  function SuccessBanner(query: map<string, string>): (r: Option<string>)
    ensures r.Some? <==> "success" in query && Truthy(query["success"])
  {
    if "success" in query && Truthy(query["success"]) then Some(BannerText(query["success"])) else None
  }

  /** Following a redirect shows the banner of the write that issued it. */
  lemma RedirectShowsBanner(k: SuccessKind)
    ensures SuccessBanner(map["success" := KindText(k)]) ==
      Some(match k
           case Created => "Item created successfully."
           case Updated => "Item updated successfully."
           case Deleted => "Item deleted successfully.")
  {
  }

  datatype EditLookup = NoEdit | Gone | Found(id: int, fields: Fields)

  /** Lines 150-152: the id `?action=edit&id=N` asks for, `(int) ($_GET['id'] ?? 0)`, when it is positive. */
  function RequestedEditId(query: map<string, string>): (r: Option<int>)
    ensures r.Some? <==> Field(query, "action") == "edit" && "id" in query && IntCast(query["id"]) > 0
    ensures r.Some? ==> r.value == IntCast(query["id"])
  {
    if Field(query, "action") == "edit" then
      var id := if "id" in query then IntCast(query["id"]) else 0;
      if id > 0 then Some(id) else None
    else None
  }

  /** Lines 150-163: the requested row is looked up; it is found, or it no longer exists. */
  function LookupEdit(rows: map<int, Fields>, query: map<string, string>): (r: EditLookup)
    ensures r.Found? <==> RequestedEditId(query).Some? && RequestedEditId(query).value in rows
    ensures r.Gone? <==> RequestedEditId(query).Some? && RequestedEditId(query).value !in rows
    ensures r.Found? ==> r.id == RequestedEditId(query).value && r.fields == rows[r.id]
  {
    match RequestedEditId(query)
    case None => NoEdit
    case Some(id) => if id in rows then Found(id, rows[id]) else Gone
  }

  /** Line 157: the notice for an edit target that no longer exists. */
  function Notice(edit: EditLookup): (r: Option<string>)
    ensures r.Some? <==> edit.Gone?
    ensures r.Some? ==> r.value == "That item no longer exists."
  {
    if edit.Gone? then Some("That item no longer exists.") else None
  }

  /**
   * Lines 159-168: the id the form will update, or None when the form is a
   * create form; a POSTed `update` keeps the form in edit mode.
   */
  function EditingId(edit: EditLookup, post: map<string, string>): (r: Option<int>)
    ensures edit.Found? ==> r == Some(edit.id)
    ensures r.None? <==> !edit.Found? && Field(post, "action") != "update"
    ensures !edit.Found? && Field(post, "action") == "update" ==> r == Some(IntCast(Field(post, "id")))
  {
    if edit.Found? then Some(edit.id)
    else if Field(post, "action") == "update" then Some(if "id" in post then IntCast(post["id"]) else 0)
    else None
  }

  /** The four text inputs of the form. */
  datatype FormValues = FormValues(name: string, category: string, quantity: string, price: string)

  /** Lines 180-183: the looked-up row's value when not null, else the raw POSTed value, else empty. */
  function Prefill(edit: EditLookup, post: map<string, string>): (f: FormValues)
    ensures !edit.Found? ==>
      f == FormValues(Field(post, "name"), Field(post, "category"), Field(post, "quantity"), Field(post, "price"))
    ensures edit.Found? ==> f.name == edit.fields.name
  {
    match edit
    case Found(_, row) =>
      FormValues(
        row.name,
        row.category.GetOr(Field(post, "category")),
        if row.quantity.Some? then IntString(row.quantity.value) else Field(post, "quantity"),
        row.price.GetOr(Field(post, "price")))
    case _ =>
      FormValues(Field(post, "name"), Field(post, "category"), Field(post, "quantity"), Field(post, "price"))
  }

  datatype View = View(
    errors: seq<ValidationError>,
    notice: Option<string>,
    banner: Option<string>,
    editing: Option<int>,
    form: FormValues,
    items: seq<Item>,
    totalItems: nat,
    totalQuantity: int)

  datatype Response = Redirect(kind: SuccessKind) | Render(view: View)

  /** Everything the page shows, for a table and a request. */
  function Page(rows: map<int, Fields>, nextId: int, req: Request, errors: seq<ValidationError>): View {
    var post := PostData(req);
    var edit := LookupEdit(rows, req.query);
    var items := Listing(rows, nextId);
    View(errors, Notice(edit), SuccessBanner(req.query), EditingId(edit, post), Prefill(edit, post),
         items, |items|, SumQuantities(items))
  }

  /** A rejected form typed on a page that is not an edit page comes back with the raw, untrimmed POST values. */
  lemma RejectedFormKeepsTypedValues(rows: map<int, Fields>, nextId: int, req: Request, errors: seq<ValidationError>)
    requires req.verb == Post && !LookupEdit(rows, req.query).Found?
    ensures var form := Page(rows, nextId, req, errors).form;
      form == FormValues(Field(req.form, "name"), Field(req.form, "category"), Field(req.form, "quantity"), Field(req.form, "price"))
  {
  }

  /**
   * A plain GET edit page: an existing row puts the form in edit mode for it,
   * filled with its texts; a missing one shows the notice and an empty create form.
   */
  lemma EditPage(rows: map<int, Fields>, nextId: int, req: Request, errors: seq<ValidationError>, n: int)
    requires req.verb != Post
    requires Field(req.query, "action") == "edit" && "id" in req.query && IntCast(req.query["id"]) == n && n > 0
    ensures var page := Page(rows, nextId, req, errors);
      n in rows ==> page.editing == Some(n) && page.notice.None? && page.form == ShownFields(rows[n])
    ensures var page := Page(rows, nextId, req, errors);
      n !in rows ==>
        && page.editing.None? && page.notice == Some("That item no longer exists.")
        && page.form == FormValues("", "", "", "")
  {
    if n in rows {
      PrefillShowsRow(n, rows[n]);
    }
  }

  /** What a request asks for: nothing written, a create/update submission, or a delete. */
  datatype Intent = Browse | Submit(submission: Submission) | Remove(id: int)

  function IntentOf(req: Request): Intent {
    if req.verb != Post then Browse
    else
      var action := Field(req.form, "action");
      if action == "create" then Submit(ReadSubmission(Create, req.form))
      else if action == "update" then Submit(ReadSubmission(Update, req.form))
      else if action == "delete" then Remove(if "id" in req.form then IntCast(req.form["id"]) else 0)
      else Browse
  }

  // ------------------------------------------------------------ the handler

  class InventoryApp {
    /** The `items` table: id to row. */
    var rows: map<int, Fields>
    /** The table's AUTO_INCREMENT counter: the id the next INSERT gets. */
    var nextId: int

    ghost predicate Valid()
      reads this
    {
      1 <= nextId && forall id :: id in rows ==> 1 <= id < nextId
    }

    /** The table as it stands when the request starts (`CREATE TABLE IF NOT EXISTS` changes nothing). */
    constructor (existing: map<int, Fields>, autoIncrement: int)
      requires 1 <= autoIncrement
      requires forall id :: id in existing ==> 1 <= id < autoIncrement
      ensures Valid() && rows == existing && nextId == autoIncrement
    {
      rows := existing;
      nextId := autoIncrement;
    }

    /** `INSERT INTO items ...`: one new row under a fresh id. */
    method Insert(f: Fields) returns (id: int)
      requires Valid()
      modifies this
      ensures Valid()
      ensures id == old(nextId) && id !in old(rows)
      ensures rows == old(rows)[id := f] && nextId == old(nextId) + 1
    {
      id := nextId;
      rows := rows[id := f];
      nextId := nextId + 1;
    }

    /** `UPDATE items SET ... WHERE id = :id`: rewrites the matching row, if any. */
    method UpdateWhereId(id: int, f: Fields)
      requires Valid()
      modifies this
      ensures Valid()
      ensures rows == (if id in old(rows) then old(rows)[id := f] else old(rows))
      ensures nextId == old(nextId)
    {
      if id in rows {
        rows := rows[id := f];
      }
    }

    /** `DELETE FROM items WHERE id = :id`. */
    method DeleteWhereId(id: int)
      requires Valid()
      modifies this
      ensures Valid()
      ensures rows == old(rows) - {id}
      ensures nextId == old(nextId)
    {
      rows := rows - {id};
    }

    /** Lines 147-183: the data the page is rendered from. */
    method RenderPage(req: Request, errors: seq<ValidationError>) returns (view: View)
      requires Valid()
      ensures view == Page(rows, nextId, req, errors)
      ensures view.totalItems == |rows|
      ensures forall i, j :: 0 <= i < j < |view.items| ==> view.items[i].id > view.items[j].id
      ensures forall it :: it in view.items <==> it.id in rows && rows[it.id] == it.fields
    {
      var post := PostData(req);
      var edit := LookupEdit(rows, req.query);
      var items := Listing(rows, nextId);
      var totalQuantity := TotalQuantity(items);
      view := View(errors, Notice(edit), SuccessBanner(req.query), EditingId(edit, post), Prefill(edit, post),
                   items, |items|, totalQuantity);
      ListDownLength(rows, nextId - 1);
      assert IdsUpTo(rows, nextId - 1) == rows.Keys;
    }

    /** Lines 98-127: write the normalised fields of an accepted submission and redirect. */
    method Store(action: WriteAction, id: Option<int>, fields: Fields) returns (resp: Response)
      requires Valid()
      requires action == Update ==> id.Some? && id.value != 0
      modifies this
      ensures Valid()
      ensures AllWellFormed(old(rows)) && WellFormed(fields) ==> AllWellFormed(rows)
      ensures action == Create ==>
        && rows == old(rows)[old(nextId) := fields] && nextId == old(nextId) + 1
        && resp == Redirect(Created)
      ensures action == Update ==>
        && rows == (if id.value in old(rows) then old(rows)[id.value := fields] else old(rows))
        && nextId == old(nextId)
        && resp == Redirect(Updated)
    {
      if action == Create {
        if AllWellFormed(rows) && WellFormed(fields) {
          StoreKeepsWellFormed(rows, nextId, fields);
        }
        var _ := Insert(fields);
        return Redirect(Created);
      }
      if AllWellFormed(rows) && WellFormed(fields) {
        StoreKeepsWellFormed(rows, id.value, fields);
      }
      UpdateWhereId(id.value, fields);
      return Redirect(Updated);
    }

    /** Lines 76-128: validate a create or update form, then write and redirect or re-render. */
    method Save(req: Request, s: Submission) returns (resp: Response)
      requires Valid() && Trimmed(s)
      modifies this
      ensures Valid()
      ensures AllWellFormed(old(rows)) ==> AllWellFormed(rows)
      ensures !Acceptable(s) ==>
        && rows == old(rows) && nextId == old(nextId)
        && resp.Render? && ReportsExactly(resp.view.errors, s)
        && resp.view == Page(rows, nextId, req, resp.view.errors)
      ensures Acceptable(s) && s.action == Create ==>
        && rows == old(rows)[old(nextId) := Normalize(s)] && nextId == old(nextId) + 1
        && resp == Redirect(Created)
      ensures Acceptable(s) && s.action == Update ==>
        && s.id.Some? && s.id.value != 0
        && rows == (if s.id.value in old(rows) then old(rows)[s.id.value := Normalize(s)] else old(rows))
        && nextId == old(nextId)
        && resp == Redirect(Updated)
    {
      var errors := Validate(s);
      if errors != [] {
        var view := RenderPage(req, errors);
        return Render(view);
      }
      AcceptedIsWellFormed(s);
      // validation has ruled out a null or zero id for an update
      assert s.action == Update ==> !Applies(MissingId, s);
      resp := Store(s.action, s.id, Normalize(s));
    }

    /** Lines 74-183: handle one request. */
    method Handle(req: Request) returns (resp: Response)
      requires Valid()
      modifies this
      ensures Valid()
      ensures AllWellFormed(old(rows)) ==> AllWellFormed(rows)
      ensures match IntentOf(req)
        case Browse =>
          rows == old(rows) && nextId == old(nextId) && resp == Render(Page(rows, nextId, req, []))
        case Submit(s) =>
          if !Acceptable(s) then
            && rows == old(rows) && nextId == old(nextId)
            && resp.Render? && ReportsExactly(resp.view.errors, s)
            && resp.view == Page(rows, nextId, req, resp.view.errors)
          else if s.action == Create then
            && rows == old(rows)[old(nextId) := Normalize(s)] && nextId == old(nextId) + 1
            && resp == Redirect(Created)
          else
            && s.id.Some? && s.id.value != 0
            && rows == (if s.id.value in old(rows) then old(rows)[s.id.value := Normalize(s)] else old(rows))
            && nextId == old(nextId)
            && resp == Redirect(Updated)
        case Remove(id) =>
          && rows == (if id > 0 then old(rows) - {id} else old(rows))
          && nextId == old(nextId)
          && resp == Redirect(Deleted)
    {
      if req.verb == Post {
        var action := Field(req.form, "action");
        if action == "create" || action == "update" {
          var verb := if action == "create" then Create else Update;
          ReadSubmissionTrimmed(verb, req.form);
          resp := Save(req, ReadSubmission(verb, req.form));
          return;
        }
        if action == "delete" {
          var id := if "id" in req.form then IntCast(req.form["id"]) else 0;
          if id > 0 {
            DeleteWhereId(id);
          }
          return Redirect(Deleted);
        }
      }
      var view := RenderPage(req, []);
      resp := Render(view);
    }
  }

  /** A posted form whose id and four fields carry the given values. */
  predicate Carries(form: map<string, string>, id: int, values: FormValues) {
    && "id" in form && form["id"] == IntString(id)
    && Field(form, "name") == values.name && Field(form, "category") == values.category
    && Field(form, "quantity") == values.quantity && Field(form, "price") == values.price
  }

  /** A blank-or-text column shown in the form and read back. */
  lemma OptionalTextRoundTrip(v: Option<string>)
    requires v.Some? ==> v.value != ""
    ensures BlankToNull(v.GetOr("")) == v
  {
  }

  lemma OptionalTextTrimmed(v: Option<string>)
    requires v.Some? ==> Trim(v.value) == v.value
    ensures Trim(v.GetOr("")) == v.GetOr("")
  {
    if v.None? {
      assert Trim("") == "";
    }
  }

  /** A price shown in the form and read back. */
  lemma ShownPriceRoundTrip(p: Option<string>)
    requires p.Some? ==> PriceShape(p.value)
    ensures PriceAccepted(p.GetOr("")) && BlankToNull(p.GetOr("")) == p
  {
    if p.Some? {
      PriceShapeIsTrimmed(p.value);
      ScanPriceIff(p.value);
    }
  }

  /** A quantity shown in the form and read back. */
  lemma QuantityTextRoundTrip(q: Option<int>)
    requires q.Some? ==> q.value >= 0
    ensures var t := if q.Some? then IntString(q.value) else "";
      Trim(t) == t && QuantityAccepted(t) && (if t == "" then None else Some(IntCast(t))) == q
  {
    if q.Some? {
      var t := DecimalString(q.value);
      TrimOfTrimmed(t);
      QuantityRoundTrip(q.value);
      CastOfIntString(q.value);
    } else {
      assert Trim("") == "";
    }
  }

  /** The texts a plain edit page shows for a row. */
  function ShownFields(f: Fields): FormValues {
    FormValues(f.name, f.category.GetOr(""), if f.quantity.Some? then IntString(f.quantity.value) else "", f.price.GetOr(""))
  }

  lemma PrefillShowsRow(id: int, f: Fields)
    ensures Prefill(Found(id, f), map[]) == ShownFields(f)
  {
  }

  /** An update submission carrying a row's shown texts is accepted and normalises back to the row. */
  lemma ShownFieldsRoundTrip(s: Submission, id: int, f: Fields)
    requires id > 0 && f.name != ""
    requires f.category.Some? ==> f.category.value != ""
    requires f.quantity.Some? ==> f.quantity.value >= 0
    requires f.price.Some? ==> PriceShape(f.price.value)
    requires s.action == Update && s.id == Some(id)
    requires var shown := ShownFields(f);
      s.name == shown.name && s.category == shown.category && s.quantity == shown.quantity && s.price == shown.price
    ensures Acceptable(s) && Normalize(s) == f
  {
    OptionalTextRoundTrip(f.category);
    QuantityTextRoundTrip(f.quantity);
    ShownPriceRoundTrip(f.price);
  }

  /** Reading back a form that carries a row's shown texts recovers those texts. */
  lemma ReadShownForm(id: int, f: Fields, form: map<string, string>)
    requires WellFormed(f)
    requires Carries(form, id, ShownFields(f))
    ensures var s := ReadSubmission(Update, form);
      var shown := ShownFields(f);
      && s.action == Update && s.id == Some(id)
      && s.name == shown.name && s.category == shown.category && s.quantity == shown.quantity && s.price == shown.price
  {
    var shown := ShownFields(f);
    CastOfIntString(id);
    OptionalTextTrimmed(f.category);
    QuantityTextRoundTrip(f.quantity);
    if f.price.Some? {
      PriceShapeIsTrimmed(f.price.value);
    }
    OptionalTextTrimmed(f.price);
  }

  /** Resubmitting the form of a plain edit page unchanged writes back exactly the row it was filled from. */
  lemma EditFormResubmission(id: int, f: Fields, form: map<string, string>)
    requires id > 0 && WellFormed(f)
    requires Carries(form, id, Prefill(Found(id, f), map[]))
    ensures var s := ReadSubmission(Update, form);
      Acceptable(s) && s.id == Some(id) && Normalize(s) == f
  {
    PrefillShowsRow(id, f);
    ReadShownForm(id, f, form);
    ShownFieldsRoundTrip(ReadSubmission(Update, form), id, f);
  }
}

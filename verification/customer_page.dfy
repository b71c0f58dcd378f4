/**
 The customer list page (src/app/page.tsx): the authoritative list, the
 displayed view, the form draft, the edit target, the search term and the sort
 configuration, changed only by the page's handlers.

 Every answer of the customer service is a parameter of the handler that
 waits for it. Toasts and console messages come back as an `Event`. A handler
 that would start a re-fetch returns `refetch == true`; the re-fetch itself is
 the separate step `FetchCustomers`.
 */
module CustomerPage {
  import opened Optional
  import opened Text
  import opened Ordering
  import opened Sequences

  /** A customer as the page shows it. */
  datatype Customer = Customer(name: string, email: string, favNumber: int, active: bool)

  /** The form draft: the text of each input, and the active flag. */
  datatype Draft = Draft(name: string, email: string, favNumber: string, active: bool)

  /** The draft the form starts with and returns to after a successful submit. */
  const EmptyDraft := Draft("", "", "", true)

  /** The inputs of the form, by their `name` attribute. */
  datatype Input = NameInput | EmailInput | FavNumberInput

  function InputValue(d: Draft, input: Input): string {
    match input
    case NameInput => d.name
    case EmailInput => d.email
    case FavNumberInput => d.favNumber
  }

  /** `{...formData, [name]: value}`. */
  function WithInput(d: Draft, input: Input, value: string): (r: Draft)
    ensures InputValue(r, input) == value
    ensures forall other :: other != input ==> InputValue(r, other) == InputValue(d, other)
    ensures r.active == d.active
  {
    match input
    case NameInput => d.(name := value)
    case EmailInput => d.(email := value)
    case FavNumberInput => d.(favNumber := value)
  }

  /** The draft `editCustomer` fills in: the customer's fields, its number as the form shows it. */
  function DraftOf(c: Customer): (d: Draft)
    ensures d.name == c.name && d.email == c.email && d.active == c.active
    ensures d.favNumber == DecimalString(c.favNumber)
    ensures c.favNumber >= 0 ==> ParseNat(d.favNumber) == c.favNumber
    ensures c.favNumber < 0 ==> d.favNumber[0] == '-' && ParseNat(d.favNumber[1..]) == -c.favNumber
  {
    Draft(c.name, c.email, DecimalString(c.favNumber), c.active)
  }

  // ---------------------------------------------------------------- search

  /** The search test: the lower-cased term occurs in the lower-cased name, e-mail or number text. */
  predicate Matches(c: Customer, term: string): (r: bool)
    ensures term == [] ==> r
    ensures Lower(term) == Lower(c.name) || Lower(term) == Lower(c.email) ==> r
    ensures r ==> |term| <= |c.name| || |term| <= |c.email| || |term| <= |DecimalString(c.favNumber)|
  {
    var t := Lower(term);
    Contains(Lower(c.name), t) || Contains(Lower(c.email), t) || Contains(Lower(DecimalString(c.favNumber)), t)
  }

  /** `customers.filter(...)`: the customers that match the term, in the order of `s`. */
  function SearchFilter(s: seq<Customer>, term: string): (r: seq<Customer>)
    ensures |r| <= |s|
    ensures forall i :: 0 <= i < |r| ==> Matches(r[i], term)
  {
    Filter((c: Customer) => Matches(c, term), s)
  }

  /** The filter keeps exactly the matching customers, each as often as `s` holds it. */
  lemma SearchFilterCount(s: seq<Customer>, term: string)
    ensures forall c :: multiset(SearchFilter(s, term))[c] == if Matches(c, term) then multiset(s)[c] else 0
  {
    FilterCount((c: Customer) => Matches(c, term), s);
  }

  /** Filtering works piece by piece, so it keeps the order of the list. */
  lemma SearchFilterConcat(a: seq<Customer>, b: seq<Customer>, term: string)
    ensures SearchFilter(a + b, term) == SearchFilter(a, term) + SearchFilter(b, term)
  {
    FilterConcat((c: Customer) => Matches(c, term), a, b);
  }

  /** An empty search term keeps every customer, in order. */
  lemma EmptyTermKeepsAll(s: seq<Customer>)
    ensures SearchFilter(s, "") == s
  {
    FilterAll((c: Customer) => Matches(c, ""), s);
  }

  /** Upper- and lower-case letters in the search term select the same customers. */
  lemma SearchIgnoresTermCase(s: seq<Customer>, term: string)
    ensures SearchFilter(s, term) == SearchFilter(s, Lower(term))
  {
    LowerIdempotent(term);
    FilterAgree((c: Customer) => Matches(c, term), (c: Customer) => Matches(c, Lower(term)), s);
  }

  // ---------------------------------------------------------------- sort

  /** The columns the table header sorts on. */
  datatype SortKey = Name | Email | FavNumber | Active

  datatype Direction = Asc | Desc

  datatype SortConfig = SortConfig(key: SortKey, direction: Direction)

  /** The configuration the page starts with: name, ascending. */
  const InitialSortConfig := SortConfig(Name, Asc)

  /** The direction of a click on `key`: descending when `key` is sorted ascending now, else ascending. */
  function NextDirection(config: SortConfig, key: SortKey): (r: Direction)
    ensures key != config.key ==> r == Asc
    ensures key == config.key ==> r == Flip(config.direction)
  {
    if config.key == key && config.direction == Asc then Desc else Asc
  }

  function Flip(d: Direction): Direction {
    if d == Asc then Desc else Asc
  }

  /** The configuration after one click on `key`. */
  function Click(config: SortConfig, key: SortKey): (r: SortConfig)
    ensures r.key == key
    ensures config.key == key ==> r.direction != config.direction
    ensures config.key != key ==> r.direction == Asc
  {
    SortConfig(key, NextDirection(config, key))
  }

  /** The configuration after `n` clicks in a row on `key`. */
  function Clicks(config: SortConfig, key: SortKey, n: nat): SortConfig {
    if n == 0 then config else Click(Clicks(config, key, n - 1), key)
  }

  /** A click on a column other than the sorted one always sorts ascending. */
  lemma NewColumnSortsAscending(config: SortConfig, key: SortKey)
    requires config.key != key
    ensures Click(config, key) == SortConfig(key, Asc)
  {
  }

  /** After the first click, clicks on one column alternate between the two directions. */
  lemma {:induction false} ClicksAlternate(config: SortConfig, key: SortKey, n: nat)
    requires n >= 1
    ensures Clicks(config, key, n).key == key
    ensures Clicks(config, key, n).direction ==
      if n % 2 == 1 then NextDirection(config, key) else Flip(NextDirection(config, key))
  {
    if n > 1 {
      ClicksAlternate(config, key, n - 1);
    }
  }

  /**
   The sort configuration starts as name/ascending, although the loaded list is
   shown unsorted in the service's order, so the first click on Name sorts
   descending.
   */
  lemma FirstNameClickSortsDescending()
    ensures Click(InitialSortConfig, Name) == SortConfig(Name, Desc)
    ensures Clicks(InitialSortConfig, Name, 2) == SortConfig(Name, Asc)
  {
  }

  /** The value of column `key` of a customer. */
  function KeyOf(key: SortKey, c: Customer): (r: Val)
    ensures r.Str? <==> key == Name || key == Email
    ensures r.Num? <==> key == FavNumber
    ensures r.Flag? <==> key == Active
  {
    match key
    case Name => Str(c.name)
    case Email => Str(c.email)
    case FavNumber => Num(c.favNumber)
    case Active => Flag(c.active)
  }

  /** The comparator handed to `Array.prototype.sort`. */
  function Compare(key: SortKey, direction: Direction, a: Customer, b: Customer): (r: int)
    ensures r == -1 || r == 0 || r == 1
    ensures r == 0 <==> KeyOf(key, a) == KeyOf(key, b)
    ensures r <= 0 <==> NotAfter(KeyOf(key, a), KeyOf(key, b), direction == Desc)
  {
    var u, v := KeyOf(key, a), KeyOf(key, b);
    LessTrichotomy(u, v);
    match direction
    case Asc => if Less(u, v) then -1 else if Less(v, u) then 1 else 0
    case Desc => if Less(u, v) then 1 else if Less(v, u) then -1 else 0
  }

  /** Swapping the arguments negates the comparison; so does reversing the direction. */
  lemma CompareAntisymmetric(key: SortKey, direction: Direction, a: Customer, b: Customer)
    ensures Compare(key, direction, a, b) == -Compare(key, direction, b, a)
    ensures Compare(key, Flip(direction), a, b) == -Compare(key, direction, a, b)
  {
    LessTrichotomy(KeyOf(key, a), KeyOf(key, b));
  }

  /** No customer in `s` compares after a later one. */
  ghost predicate SortedView(s: seq<Customer>, key: SortKey, direction: Direction) {
    forall i, j :: 0 <= i < j < |s| ==> Compare(key, direction, s[i], s[j]) <= 0
  }

  /** `[...s].sort(comparator)`: a permutation of `s` in the comparator's order. */
  function SortView(s: seq<Customer>, key: SortKey, direction: Direction): (r: seq<Customer>)
    ensures multiset(r) == multiset(s)
    ensures SortedView(r, key, direction)
  {
    SortOn(s, (c: Customer) => KeyOf(key, c), direction == Desc)
  }

  // ---------------------------------------------------------------- service

  /** How a request to the service ended: with a payload, with an HTTP error status, or with no response. */
  datatype Reply<P> = Success(payload: P) | HttpError(status: int, message: string) | NetworkError(message: string)

  /** The request a handler sends. */
  datatype Request = Post(body: Draft) | Put(email: string, body: Draft) | Delete(email: string) | Toggle(email: string)

  /** What the user or the console sees: a toast, a `console.error` line, or nothing. */
  datatype Event = ToastSuccess(text: string) | ToastError(text: string) | ConsoleError(context: string, detail: string) | NoEvent

  /** The status line the toggle handler shows for the flag the row had when clicked. */
  function ToggleMessage(currentStatus: bool): (m: string)
    ensures m == "Customer status updated to active" <==> !currentStatus
    ensures m == "Customer status updated to inactive" <==> currentStatus
  {
    "Customer status updated to " + (if !currentStatus then "active" else "inactive")
  }

  class Page {
    var customers: seq<Customer>
    var filteredCustomers: seq<Customer>
    var formData: Draft
    var editingCustomer: Option<Customer>
    var searchTerm: string
    var sortConfig: SortConfig

    /** The view only ever shows customers of the list, each at most as often as the list holds it. */
    ghost predicate Valid()
      reads this
    {
      multiset(filteredCustomers) <= multiset(customers)
    }

    constructor ()
      ensures Valid()
      ensures customers == [] && filteredCustomers == []
      ensures formData == EmptyDraft && editingCustomer == None
      ensures searchTerm == "" && sortConfig == InitialSortConfig
    {
      customers, filteredCustomers := [], [];
      formData, editingCustomer := EmptyDraft, None;
      searchTerm, sortConfig := "", InitialSortConfig;
    }

    /**
     `fetchCustomers` followed by the effect on `customers`: a fetched list
     replaces the list and the view, unfiltered and unsorted; a failed fetch
     only logs.
     */
    method FetchCustomers(reply: Reply<seq<Customer>>) returns (ev: Event)
      requires Valid()
      modifies this`customers, this`filteredCustomers
      ensures Valid()
      ensures reply.Success? ==>
        customers == reply.payload && filteredCustomers == reply.payload && ev == NoEvent
      ensures !reply.Success? ==>
        && customers == old(customers) && filteredCustomers == old(filteredCustomers)
        && ev == ConsoleError("Error fetching customers:", reply.message)
      ensures searchTerm == old(searchTerm) && sortConfig == old(sortConfig)
    {
      if reply.Success? {
        customers := reply.payload;
        filteredCustomers := customers;
        ev := NoEvent;
      } else {
        ev := ConsoleError("Error fetching customers:", reply.message);
      }
    }

    /** `handleInputChange`: one input of the draft takes the typed value. */
    method HandleInputChange(input: Input, value: string)
      modifies this`formData
      ensures InputValue(formData, input) == value
      ensures forall other :: other != input ==> InputValue(formData, other) == InputValue(old(formData), other)
      ensures formData.active == old(formData.active)
    {
      formData := WithInput(formData, input, value);
    }

    /** `handleSearchChange`: the view becomes the whole list filtered by the new term; any earlier sort is lost. */
    method HandleSearchChange(value: string)
      requires Valid()
      modifies this`searchTerm, this`filteredCustomers
      ensures Valid()
      ensures searchTerm == value
      ensures filteredCustomers == SearchFilter(customers, value)
      ensures forall c :: c in filteredCustomers <==> c in customers && Matches(c, value)
    {
      searchTerm := value;
      filteredCustomers := SearchFilter(customers, value);
      SearchFilterCount(customers, value);
    }

    /** `sortCustomers`: choose the direction, then sort the current view by that column. */
    method SortCustomers(key: SortKey)
      requires Valid()
      modifies this`sortConfig, this`filteredCustomers
      ensures Valid()
      ensures sortConfig == Click(old(sortConfig), key)
      ensures multiset(filteredCustomers) == multiset(old(filteredCustomers))
      ensures SortedView(filteredCustomers, key, sortConfig.direction)
    {
      var direction := Asc;
      if sortConfig.key == key && sortConfig.direction == Asc {
        direction := Desc;
      }
      sortConfig := SortConfig(key, direction);
      filteredCustomers := SortView(filteredCustomers, key, direction);
    }

    /** `editCustomer`: make `c` the edit target and copy its fields into the draft; nothing is sent. */
    method EditCustomer(c: Customer)
      modifies this`editingCustomer, this`formData
      ensures editingCustomer == Some(c)
      ensures formData == DraftOf(c)
    {
      editingCustomer := Some(c);
      formData := DraftOf(c);
    }

    /** `addCustomer`: post the draft; clear it on success; a 400 is reported as a duplicate e-mail. */
    method AddCustomer(reply: Reply<()>) returns (request: Request, ev: Event, refetch: bool)
      modifies this`formData
      ensures request == Post(old(formData))
      ensures refetch <==> reply.Success?
      ensures reply.Success? ==>
        formData == EmptyDraft && ev == ToastSuccess("Customer added successfully!")
      ensures reply.HttpError? && reply.status == 400 ==>
        formData == old(formData) && ev == ToastError("Error adding customer: Duplicate customer email.")
      ensures (reply.NetworkError? || (reply.HttpError? && reply.status != 400)) ==>
        formData == old(formData) && ev == ConsoleError("Error adding customer:", reply.message)
    {
      request := Post(formData);
      refetch := reply.Success?;
      match reply
      case Success(_) =>
        formData := EmptyDraft;
        ev := ToastSuccess("Customer added successfully!");
      case HttpError(status, message) =>
        if status == 400 {
          ev := ToastError("Error adding customer: Duplicate customer email.");
        } else {
          ev := ConsoleError("Error adding customer:", message);
        }
      case NetworkError(message) =>
        ev := ConsoleError("Error adding customer:", message);
    }

    /** `updateCustomer`: put the draft under the edit target's e-mail; clear both on success. */
    method UpdateCustomer(reply: Reply<()>) returns (request: Request, ev: Event, refetch: bool)
      requires editingCustomer.Some?
      modifies this`formData, this`editingCustomer
      ensures request == Put(old(editingCustomer).value.email, old(formData))
      ensures refetch <==> reply.Success?
      ensures reply.Success? ==>
        && formData == EmptyDraft && editingCustomer == None
        && ev == ToastSuccess("Customer updated successfully!")
      ensures !reply.Success? ==>
        && formData == old(formData) && editingCustomer == old(editingCustomer)
        && ev == ConsoleError("Error updating customer:", reply.message)
    {
      request := Put(editingCustomer.value.email, formData);
      refetch := reply.Success?;
      if reply.Success? {
        formData := EmptyDraft;
        editingCustomer := None;
        ev := ToastSuccess("Customer updated successfully!");
      } else {
        ev := ConsoleError("Error updating customer:", reply.message);
      }
    }

    /** The form's submit: update when there is an edit target, add otherwise. */
    method Submit(reply: Reply<()>) returns (request: Request, ev: Event, refetch: bool)
      modifies this`formData, this`editingCustomer
      ensures old(editingCustomer).Some? ==> request == Put(old(editingCustomer).value.email, old(formData))
      ensures old(editingCustomer).None? ==> request == Post(old(formData))
      ensures refetch <==> reply.Success?
      ensures reply.Success? ==> formData == EmptyDraft && editingCustomer == None
      ensures !reply.Success? ==> formData == old(formData) && editingCustomer == old(editingCustomer)
      ensures old(editingCustomer).Some? && reply.Success? ==>
        ev == ToastSuccess("Customer updated successfully!")
      ensures old(editingCustomer).Some? && !reply.Success? ==>
        ev == ConsoleError("Error updating customer:", reply.message)
      ensures old(editingCustomer).None? && reply.Success? ==>
        ev == ToastSuccess("Customer added successfully!")
      ensures old(editingCustomer).None? && reply.HttpError? && reply.status == 400 ==>
        ev == ToastError("Error adding customer: Duplicate customer email.")
      ensures old(editingCustomer).None? && (reply.NetworkError? || (reply.HttpError? && reply.status != 400)) ==>
        ev == ConsoleError("Error adding customer:", reply.message)
    {
      if editingCustomer.Some? {
        request, ev, refetch := UpdateCustomer(reply);
      } else {
        request, ev, refetch := AddCustomer(reply);
      }
    }

    /** `deleteCustomer`: delete by e-mail; the row goes only when the re-fetched list lacks it. */
    method DeleteCustomer(email: string, reply: Reply<()>) returns (request: Request, ev: Event, refetch: bool)
      ensures request == Delete(email)
      ensures refetch <==> reply.Success?
      ensures reply.Success? ==> ev == ToastSuccess("Customer deleted successfully!")
      ensures !reply.Success? ==> ev == ConsoleError("Error deleting customer:", reply.message)
    {
      request := Delete(email);
      refetch := reply.Success?;
      if reply.Success? {
        ev := ToastSuccess("Customer deleted successfully!");
      } else {
        ev := ConsoleError("Error deleting customer:", reply.message);
      }
    }

    /** `toggleCustomerStatus`: ask the service to flip the flag; the toast names the flag's new value. */
    method ToggleCustomerStatus(email: string, currentStatus: bool, reply: Reply<()>)
      returns (request: Request, ev: Event, refetch: bool)
      ensures request == Toggle(email)
      ensures refetch <==> reply.Success?
      ensures reply.Success? ==> ev == ToastSuccess(ToggleMessage(currentStatus))
      ensures !reply.Success? ==> ev == ConsoleError("Error toggling customer status:", reply.message)
    {
      request := Toggle(email);
      refetch := reply.Success?;
      if reply.Success? {
        ev := ToastSuccess(ToggleMessage(currentStatus));
      } else {
        ev := ConsoleError("Error toggling customer status:", reply.message);
      }
    }
  }

  /** On a freshly loaded page, a click on the Name header shows the list sorted by name, descending. */
  method LoadThenSortByName(list: seq<Customer>) returns (p: Page)
    ensures p.customers == list
    ensures p.sortConfig == SortConfig(Name, Desc)
    ensures multiset(p.filteredCustomers) == multiset(list)
    ensures SortedView(p.filteredCustomers, Name, Desc)
  {
    p := new Page();
    var _ := p.FetchCustomers(Success(list));
    p.SortCustomers(Name);
  }
}

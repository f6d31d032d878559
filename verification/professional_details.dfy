/** The professional details helper: the state and city menus over its own
    location table, and the Markdown text it builds from the submitted
    details. */
module ProfessionalDetails {
  import opened Text
  import opened Locations
  import YearsPattern

  /** The helper's location table: two states of the USA, and India's states. */
  const LocationTable: seq<Country> := [
    Country("USA", [
      Region("California", ["Los Angeles", "San Francisco", "San Diego"]),
      Region("Texas", ["Houston", "Austin", "Dallas"])]),
    Country("India", IndiaStates)]

  /** India's twenty-eight states, listed alphabetically, each with its cities. */
  const IndiaStates: seq<Region> := [
    Region("Andhra Pradesh", ["Visakhapatnam", "Vijayawada", "Guntur"]),
    Region("Arunachal Pradesh", ["Itanagar", "Tawang", "Ziro"]),
    Region("Assam", ["Guwahati", "Silchar", "Dibrugarh"]),
    Region("Bihar", ["Patna", "Gaya", "Bhagalpur"]),
    Region("Chhattisgarh", ["Raipur", "Bilaspur", "Durg"]),
    Region("Goa", ["Panaji", "Margao", "Vasco da Gama"]),
    Region("Gujarat", ["Ahmedabad", "Surat", "Vadodara"]),
    Region("Haryana", ["Gurgaon", "Faridabad", "Panipat"]),
    Region("Himachal Pradesh", ["Shimla", "Manali", "Dharamshala"]),
    Region("Jharkhand", ["Ranchi", "Jamshedpur", "Dhanbad"]),
    Region("Karnataka", ["Bangalore", "Mysore", "Hubli"]),
    Region("Kerala", ["Thiruvananthapuram", "Kochi", "Kozhikode"]),
    Region("Madhya Pradesh", ["Bhopal", "Indore", "Gwalior"]),
    Region("Maharashtra", ["Mumbai", "Pune", "Nagpur"]),
    Region("Manipur", ["Imphal", "Churachandpur", "Thoubal"]),
    Region("Meghalaya", ["Shillong", "Tura", "Jowai"]),
    Region("Mizoram", ["Aizawl", "Lunglei", "Champhai"]),
    Region("Nagaland", ["Kohima", "Dimapur", "Mokokchung"]),
    Region("Odisha", ["Bhubaneswar", "Cuttack", "Rourkela"]),
    Region("Punjab", ["Chandigarh", "Ludhiana", "Amritsar"]),
    Region("Rajasthan", ["Jaipur", "Udaipur", "Jodhpur"]),
    Region("Sikkim", ["Gangtok", "Namchi", "Pelling"]),
    Region("Tamil Nadu", ["Chennai", "Coimbatore", "Madurai"]),
    Region("Telangana", ["Hyderabad", "Warangal", "Nizamabad"]),
    Region("Tripura", ["Agartala", "Udaipur", "Dharmanagar"]),
    Region("Uttar Pradesh", ["Lucknow", "Kanpur", "Varanasi"]),
    Region("Uttarakhand", ["Dehradun", "Haridwar", "Nainital"]),
    Region("West Bengal", ["Kolkata", "Darjeeling", "Siliguri"])
  ]

  /** The table is a proper nested dictionary: no key repeats at any level,
      and every state lists cities. */
  lemma TableWellFormed()
    ensures WellFormed(LocationTable)
  {
    IndiaAlphabetical();
    AscendingDistinct(RegionNames(IndiaStates));
    assert LocationTable[1].regions == IndiaStates;
    CitiesListed();
  }

  lemma CitiesListed()
    ensures forall i, j :: 0 <= i < |LocationTable| && 0 <= j < |LocationTable[i].regions| ==>
              LocationTable[i].regions[j].cities != []
  {
    ThreeCitiesEach();
  }

  /** India's states are offered in alphabetical order. */
  lemma IndiaAlphabetical()
    ensures Ascending(RegionNames(IndiaStates))
    ensures Ascending(UpdateStates("India"))
  {
    IndiaNamesAscending();
    assert LocationTable[1].name == "India" && LocationTable[1].regions == IndiaStates;
  }

  lemma IndiaNamesAscending()
    ensures forall i :: 0 <= i < |IndiaStates| - 1 ==> Before(IndiaStates[i].name, IndiaStates[i + 1].name)
  {
    IndiaOrder0();
    IndiaOrder1();
    IndiaOrder2();
    IndiaOrder3();
    IndiaOrder4();
    IndiaOrder5();
    IndiaOrder6();
    IndiaOrder7();
    IndiaOrder8();
    IndiaOrder9();
    IndiaOrder10();
    IndiaOrder11();
    IndiaOrder12();
    IndiaOrder13();
  }

  lemma IndiaOrder0()
    ensures forall i :: 0 <= i < 2 ==> Before(IndiaStates[i].name, IndiaStates[i + 1].name)
  {
    BeforeAt(IndiaStates[0].name, IndiaStates[1].name, 1);
    BeforeAt(IndiaStates[1].name, IndiaStates[2].name, 1);
  }

  lemma IndiaOrder1()
    ensures forall i :: 2 <= i < 4 ==> Before(IndiaStates[i].name, IndiaStates[i + 1].name)
  {
    BeforeAt(IndiaStates[2].name, IndiaStates[3].name, 0);
    BeforeAt(IndiaStates[3].name, IndiaStates[4].name, 0);
  }

  lemma IndiaOrder2()
    ensures forall i :: 4 <= i < 6 ==> Before(IndiaStates[i].name, IndiaStates[i + 1].name)
  {
    BeforeAt(IndiaStates[4].name, IndiaStates[5].name, 0);
    BeforeAt(IndiaStates[5].name, IndiaStates[6].name, 1);
  }

  lemma IndiaOrder3()
    ensures forall i :: 6 <= i < 8 ==> Before(IndiaStates[i].name, IndiaStates[i + 1].name)
  {
    BeforeAt(IndiaStates[6].name, IndiaStates[7].name, 0);
    BeforeAt(IndiaStates[7].name, IndiaStates[8].name, 1);
  }

  lemma IndiaOrder4()
    ensures forall i :: 8 <= i < 10 ==> Before(IndiaStates[i].name, IndiaStates[i + 1].name)
  {
    BeforeAt(IndiaStates[8].name, IndiaStates[9].name, 0);
    BeforeAt(IndiaStates[9].name, IndiaStates[10].name, 0);
  }

  lemma IndiaOrder5()
    ensures forall i :: 10 <= i < 12 ==> Before(IndiaStates[i].name, IndiaStates[i + 1].name)
  {
    BeforeAt(IndiaStates[10].name, IndiaStates[11].name, 1);
    BeforeAt(IndiaStates[11].name, IndiaStates[12].name, 0);
  }

  lemma IndiaOrder6()
    ensures forall i :: 12 <= i < 14 ==> Before(IndiaStates[i].name, IndiaStates[i + 1].name)
  {
    BeforeAt(IndiaStates[12].name, IndiaStates[13].name, 2);
    BeforeAt(IndiaStates[13].name, IndiaStates[14].name, 2);
  }

  lemma IndiaOrder7()
    ensures forall i :: 14 <= i < 16 ==> Before(IndiaStates[i].name, IndiaStates[i + 1].name)
  {
    BeforeAt(IndiaStates[14].name, IndiaStates[15].name, 1);
    BeforeAt(IndiaStates[15].name, IndiaStates[16].name, 1);
  }

  lemma IndiaOrder8()
    ensures forall i :: 16 <= i < 18 ==> Before(IndiaStates[i].name, IndiaStates[i + 1].name)
  {
    BeforeAt(IndiaStates[16].name, IndiaStates[17].name, 0);
    BeforeAt(IndiaStates[17].name, IndiaStates[18].name, 0);
  }

  lemma IndiaOrder9()
    ensures forall i :: 18 <= i < 20 ==> Before(IndiaStates[i].name, IndiaStates[i + 1].name)
  {
    BeforeAt(IndiaStates[18].name, IndiaStates[19].name, 0);
    BeforeAt(IndiaStates[19].name, IndiaStates[20].name, 0);
  }

  lemma IndiaOrder10()
    ensures forall i :: 20 <= i < 22 ==> Before(IndiaStates[i].name, IndiaStates[i + 1].name)
  {
    BeforeAt(IndiaStates[20].name, IndiaStates[21].name, 0);
    BeforeAt(IndiaStates[21].name, IndiaStates[22].name, 0);
  }

  lemma IndiaOrder11()
    ensures forall i :: 22 <= i < 24 ==> Before(IndiaStates[i].name, IndiaStates[i + 1].name)
  {
    BeforeAt(IndiaStates[22].name, IndiaStates[23].name, 1);
    BeforeAt(IndiaStates[23].name, IndiaStates[24].name, 1);
  }

  lemma IndiaOrder12()
    ensures forall i :: 24 <= i < 26 ==> Before(IndiaStates[i].name, IndiaStates[i + 1].name)
  {
    BeforeAt(IndiaStates[24].name, IndiaStates[25].name, 0);
    BeforeAt(IndiaStates[25].name, IndiaStates[26].name, 5);
  }

  lemma IndiaOrder13()
    ensures forall i :: 26 <= i < 27 ==> Before(IndiaStates[i].name, IndiaStates[i + 1].name)
  {
    BeforeAt(IndiaStates[26].name, IndiaStates[27].name, 0);
  }

  /** Every state of the table lists exactly three cities. */
  lemma ThreeCitiesEach()
    ensures forall i, j :: 0 <= i < |LocationTable| && 0 <= j < |LocationTable[i].regions| ==>
              |LocationTable[i].regions[j].cities| == 3
  {
    assert LocationTable[1].regions == IndiaStates;
  }

  /** City names are not unique across states: Udaipur is offered under both
      Rajasthan and Tripura. */
  lemma UdaipurUnderTwoStates()
    ensures IndiaStates[20].name == "Rajasthan" && IndiaStates[24].name == "Tripura"
    ensures "Udaipur" in UpdateCities(LocationTable[1].name, IndiaStates[20].name)
    ensures "Udaipur" in UpdateCities(LocationTable[1].name, IndiaStates[24].name)
  {
    UdaipurIn(20);
    ListedUnder(20, "Udaipur");
    UdaipurIn(24);
    ListedUnder(24, "Udaipur");
    RajasthanAndTripura();
  }

  lemma RajasthanAndTripura()
    ensures IndiaStates[20].name == "Rajasthan" && IndiaStates[24].name == "Tripura"
  {
  }

  lemma UdaipurIn(j: nat)
    requires j == 20 || j == 24
    ensures j < |IndiaStates| && "Udaipur" in IndiaStates[j].cities
  {
    assert IndiaStates[j].cities[1] == "Udaipur";
  }

  /** A city listed under a state of India is offered for that state. */
  lemma ListedUnder(j: nat, city: string)
    requires j < |IndiaStates| && city in IndiaStates[j].cities
    ensures city in UpdateCities(LocationTable[1].name, IndiaStates[j].name)
  {
    IndiaEntry(j);
  }

  lemma IndiaEntry(j: nat)
    requires j < |IndiaStates|
    ensures UpdateCities(LocationTable[1].name, IndiaStates[j].name) == IndiaStates[j].cities
  {
    assert LocationTable[1].name == "India" && LocationTable[1].regions == IndiaStates;
    UpdateCitiesReturnsEntry(1, j);
  }

  /** `update_states`: the state keys of a listed country, else nothing. */
  function UpdateStates(country: string): (r: seq<string>)
    ensures country !in CountryNames(LocationTable) ==> r == []
    ensures forall i :: 0 <= i < |LocationTable| && LocationTable[i].name == country ==>
              r == RegionNames(LocationTable[i].regions)
  {
    if country in CountryNames(LocationTable) then StateOptions(LocationTable, country)
    else UnknownCountry(LocationTable, country, ""); []
  }

  /** `update_cities`: the city list when the country is listed and the
      state is one of its keys, else nothing. */
  function UpdateCities(country: string, state: string): (r: seq<string>)
    ensures r != [] <==> country in CountryNames(LocationTable) && state in UpdateStates(country)
  {
    TableWellFormed();
    CitiesIffBothKnown(LocationTable, country, state);
    CityOptions(LocationTable, country, state)
  }

  /** Looking up a listed state of a listed country gives back that state's
      own list. */
  lemma UpdateCitiesReturnsEntry(i: nat, j: nat)
    requires i < |LocationTable| && j < |LocationTable[i].regions|
    ensures UpdateCities(LocationTable[i].name, LocationTable[i].regions[j].name)
            == LocationTable[i].regions[j].cities
  {
    TableWellFormed();
    LookupsReturnEntries(LocationTable, i, j);
  }

  /** One submitted project. */
  datatype Project = Project(name: string, description: string, toolsUsed: string, roles: string)

  /** The contact block that opens the text. */
  function Header(name: string, email: string, mobile: string, country: string, state: string, city: string): string {
    "\n    **Name**: " + name
    + "\n    **Email**: " + email
    + "\n    **Mobile Number**: " + mobile
    + "\n    **Country**: " + country
    + "\n    **State**: " + state
    + "\n    **City**: " + city
    + "\n    "
  }

  const PhotoUploaded: string := "**Photo Uploaded Successfully**\n\n"
  const NoPhoto: string := "**No Photo Uploaded**\n\n"

  function PhotoLine(photo: bool): string {
    if photo then PhotoUploaded else NoPhoto
  }

  /** The opening of a project block, up to its number. */
  const ProjectHead: string := "\n        **Project "

  /** The block of the project numbered `n`. */
  function Block(n: nat, p: Project): (b: string)
    ensures ProjectHead + NatToString(n) <= b
  {
    ProjectHead + (NatToString(n)
    + ("**:\n        - **Name**: " + p.name
    + "\n        - **Description**: " + p.description
    + "\n        - **Tools Used**: " + p.toolsUsed
    + "\n        - **Roles**: " + p.roles
    + "\n        "))
  }

  /** The blocks of `projects`, numbered from `first` on. */
  function Blocks(projects: seq<Project>, first: nat): string
    decreases |projects|
  {
    if projects == [] then "" else Block(first, projects[0]) + Blocks(projects[1..], first + 1)
  }

  /** `collect_details`: the contact block, the photo line, then one block per
      project numbered from 1. */
  function CollectDetails(name: string, email: string, mobile: string, country: string, state: string,
                          city: string, photo: bool, projects: seq<Project>): (r: string)
    ensures Header(name, email, mobile, country, state, city) <= r
    ensures |r| == |Header(name, email, mobile, country, state, city)| + |PhotoLine(photo)| + |Blocks(projects, 1)|
    ensures PhotoLine(photo) <= r[|Header(name, email, mobile, country, state, city)|..]
  {
    Header(name, email, mobile, country, state, city) + (PhotoLine(photo) + Blocks(projects, 1))
  }

  /** The number a block carries: the digits after its opening words. */
  function BlockNumber(b: string): nat {
    if ProjectHead <= b then
      var e := YearsPattern.DigitRunEnd(b, |ProjectHead|);
      DecimalValue(b[|ProjectHead|..e])
    else 0
  }

  /** A block's number reads back as the number it was built with. */
  lemma BlockNumberRoundTrip(n: nat, p: Project, rest: string)
    ensures BlockNumber(Block(n, p) + rest) == n
  {
    var s := Block(n, p) + rest;
    var h := |ProjectHead|;
    var d := NatToString(n);
    assert s[h..h + |d|] == d;
    assert s[h + |d|] == '*';
    YearsPattern.DigitRunEndIs(s, h, h + |d|);
    DecimalRoundTrip(n);
  }

  /** The blocks of two lists one after the other are the blocks of the
      joined list, the second numbered on from the first. */
  lemma {:induction false} BlocksAppend(a: seq<Project>, b: seq<Project>, first: nat)
    ensures Blocks(a + b, first) == Blocks(a, first) + Blocks(b, first + |a|)
    decreases |a|
  {
    if a == [] {
      assert a + b == b;
    } else {
      var x := Block(first, a[0]);
      assert (a + b)[1..] == a[1..] + b;
      assert Blocks(a + b, first) == x + Blocks(a[1..] + b, first + 1);
      BlocksAppend(a[1..], b, first + 1);
      Associative(Block(first, a[0]), Blocks(a[1..], first + 1), Blocks(b, first + |a|));
    }
  }

  lemma Associative(x: string, y: string, z: string)
    ensures x + (y + z) == (x + y) + z
  {
  }

  /** The photo line follows the contact block: the text there announces an
      upload exactly when a photo was given. */
  lemma PhotoReported(name: string, email: string, mobile: string, country: string, state: string,
                      city: string, photo: bool, projects: seq<Project>)
    ensures var r := CollectDetails(name, email, mobile, country, state, city, photo, projects);
            var h := |Header(name, email, mobile, country, state, city)|;
            && (PhotoUploaded <= r[h..] <==> photo)
            && (NoPhoto <= r[h..] <==> !photo)
  {
    PhotoAfter(Header(name, email, mobile, country, state, city), photo, Blocks(projects, 1));
  }

  lemma PhotoAfter(header: string, photo: bool, rest: string)
    ensures PhotoUploaded <= (header + (PhotoLine(photo) + rest))[|header|..] <==> photo
    ensures NoPhoto <= (header + (PhotoLine(photo) + rest))[|header|..] <==> !photo
  {
    var t := header + (PhotoLine(photo) + rest);
    assert t[|header|..] == PhotoLine(photo) + rest;
    if photo {
      assert t[|header|..][2] == 'P';
      assert NoPhoto[2] == 'N';
    } else {
      assert t[|header|..][2] == 'N';
      assert PhotoUploaded[2] == 'P';
    }
  }

  /** The text ends with the block of the last project, numbered with the
      count of projects: one block per project and nothing after them. */
  lemma LastBlockEnds(name: string, email: string, mobile: string, country: string, state: string,
                      city: string, photo: bool, projects: seq<Project>)
    requires projects != []
    ensures EndsWith(CollectDetails(name, email, mobile, country, state, city, photo, projects),
                     Block(|projects|, projects[|projects| - 1]))
  {
    var k := |projects| - 1;
    var last := Block(k + 1, projects[k]);
    BlocksSplit(projects, 1, k);
    assert projects[k + 1..] == [];
    assert last + Blocks(projects[k + 1..], k + 2) == last;
    DropThree(Header(name, email, mobile, country, state, city), PhotoLine(photo), Blocks(projects[..k], 1), last);
  }

  /** Without projects the text ends with the photo line. */
  lemma NoProjectsEndsWithPhoto(name: string, email: string, mobile: string, country: string, state: string,
                                city: string, photo: bool)
    ensures EndsWith(CollectDetails(name, email, mobile, country, state, city, photo, []), PhotoLine(photo))
  {
    var h := Header(name, email, mobile, country, state, city);
    assert h + (PhotoLine(photo) + "") == h + PhotoLine(photo);
  }

  /** Project `k` (counting from 0) is reported in the text as project `k + 1`,
      after the blocks of the projects before it. */
  lemma ProjectsNumberedInOrder(name: string, email: string, mobile: string, country: string, state: string,
                                city: string, photo: bool, projects: seq<Project>, k: nat)
    requires k < |projects|
    ensures var r := CollectDetails(name, email, mobile, country, state, city, photo, projects);
            var o := |Header(name, email, mobile, country, state, city)| + |PhotoLine(photo)|
                     + |Blocks(projects[..k], 1)|;
            && o < |r|
            && Block(k + 1, projects[k]) <= r[o..]
            && BlockNumber(r[o..]) == k + 1
  {
    NumberedAfter(Header(name, email, mobile, country, state, city), PhotoLine(photo), projects, k);
  }

  lemma NumberedAfter(a: string, b: string, projects: seq<Project>, k: nat)
    requires k < |projects|
    ensures var r := a + (b + Blocks(projects, 1));
            var o := |a| + |b| + |Blocks(projects[..k], 1)|;
            && o < |r|
            && Block(k + 1, projects[k]) <= r[o..]
            && BlockNumber(r[o..]) == k + 1
  {
    var before := Blocks(projects[..k], 1);
    var rest := Blocks(projects[k + 1..], k + 2);
    var tail := Block(k + 1, projects[k]) + rest;
    BlocksSplit(projects, 1, k);
    DropThree(a, b, before, tail);
    BlockNumberRoundTrip(k + 1, projects[k], rest);
  }

  /** The blocks of a list are the blocks before position `k`, then the block
      at `k`, then the rest. */
  lemma BlocksSplit(projects: seq<Project>, first: nat, k: nat)
    requires k < |projects|
    ensures Blocks(projects, first)
            == Blocks(projects[..k], first) + (Block(first + k, projects[k]) + Blocks(projects[k + 1..], first + k + 1))
  {
    assert projects == projects[..k] + projects[k..];
    BlocksAppend(projects[..k], projects[k..], first);
    assert projects[k..][1..] == projects[k + 1..];
  }

  lemma DropThree(a: string, b: string, c: string, d: string)
    ensures (a + (b + (c + d)))[|a| + |b| + |c|..] == d
  {
  }
}

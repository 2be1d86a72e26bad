/** The enumerations of the organisation schema. The loader looks members up
    by name (`Topic[name]`), failing on a name that is not a member; each
    enumeration here is a datatype whose constructors are the members, with
    the members' names and the lookup by name. */
module Schema {
  import opened Wrappers

  /** The first element of `all` whose name is `s`, if any. */
  function Lookup<T>(s: string, all: seq<T>, name: T -> string): (r: Option<T>)
    ensures r.Some? ==> r.value in all && name(r.value) == s
    ensures r.None? ==> forall i :: 0 <= i < |all| ==> name(all[i]) != s
  {
    if all == [] then None
    else if name(all[0]) == s then Some(all[0])
    else Lookup(s, all[1..], name)
  }

  /** The members of `Blockchain`. */
  datatype Blockchain =
    Ethereum | Polygon | Celo | Cosmos | Near | Hedera | Tezos | Cardano | Solana |
    BinanceSmartChain | Algorand | Bitcoin | RegenNetwork | EnergyWebChain | Chia |
    Polkadot | Kusama | HyperledgerFabric | Stellar | Gnosis | ixo | Juno | Avalanche |
    Optimism | Powerledger | EOS | VeChain | Fantom | Harmony | Arbitrum | Stargaze | IOTA |
    Chainlink | EverGreen | NANO | Other | Telos | XELS | ZeroCarbon | Topl | HBAR

  /** The name of a `Blockchain` member. */
  function BlockchainName(m: Blockchain): string {
    match m
    case Ethereum => "Ethereum"
    case Polygon => "Polygon"
    case Celo => "Celo"
    case Cosmos => "Cosmos"
    case Near => "Near"
    case Hedera => "Hedera"
    case Tezos => "Tezos"
    case Cardano => "Cardano"
    case Solana => "Solana"
    case BinanceSmartChain => "BinanceSmartChain"
    case Algorand => "Algorand"
    case Bitcoin => "Bitcoin"
    case RegenNetwork => "RegenNetwork"
    case EnergyWebChain => "EnergyWebChain"
    case Chia => "Chia"
    case Polkadot => "Polkadot"
    case Kusama => "Kusama"
    case HyperledgerFabric => "HyperledgerFabric"
    case Stellar => "Stellar"
    case Gnosis => "Gnosis"
    case ixo => "ixo"
    case Juno => "Juno"
    case Avalanche => "Avalanche"
    case Optimism => "Optimism"
    case Powerledger => "Powerledger"
    case EOS => "EOS"
    case VeChain => "VeChain"
    case Fantom => "Fantom"
    case Harmony => "Harmony"
    case Arbitrum => "Arbitrum"
    case Stargaze => "Stargaze"
    case IOTA => "IOTA"
    case Chainlink => "Chainlink"
    case EverGreen => "EverGreen"
    case NANO => "NANO"
    case Other => "Other"
    case Telos => "Telos"
    case XELS => "XELS"
    case ZeroCarbon => "ZeroCarbon"
    case Topl => "Topl"
    case HBAR => "HBAR"
  }

  /** Every member of `Blockchain`, in declaration order. */
  const BlockchainMembers: seq<Blockchain> := [
    Blockchain.Ethereum, Blockchain.Polygon, Blockchain.Celo, Blockchain.Cosmos,
    Blockchain.Near, Blockchain.Hedera, Blockchain.Tezos, Blockchain.Cardano,
    Blockchain.Solana, Blockchain.BinanceSmartChain, Blockchain.Algorand,
    Blockchain.Bitcoin, Blockchain.RegenNetwork, Blockchain.EnergyWebChain, Blockchain.Chia,
    Blockchain.Polkadot, Blockchain.Kusama, Blockchain.HyperledgerFabric,
    Blockchain.Stellar, Blockchain.Gnosis, Blockchain.ixo, Blockchain.Juno,
    Blockchain.Avalanche, Blockchain.Optimism, Blockchain.Powerledger, Blockchain.EOS,
    Blockchain.VeChain, Blockchain.Fantom, Blockchain.Harmony, Blockchain.Arbitrum,
    Blockchain.Stargaze, Blockchain.IOTA, Blockchain.Chainlink, Blockchain.EverGreen,
    Blockchain.NANO, Blockchain.Other, Blockchain.Telos, Blockchain.XELS,
    Blockchain.ZeroCarbon, Blockchain.Topl, Blockchain.HBAR
  ]

  /** `Blockchain[s]`: the member named `s`, if there is one. */
  function BlockchainNamed(s: string): (r: Option<Blockchain>)
    ensures r.Some? ==> BlockchainName(r.value) == s
    ensures r.None? ==> forall i :: 0 <= i < |BlockchainMembers| ==> BlockchainName(BlockchainMembers[i]) != s
  {
    Lookup(s, BlockchainMembers, BlockchainName)
  }

  /** The members of `Web3`. */
  datatype Web3 =
    Blockchain | dApp | Token | NFT | DAO | Wallet | Exchange | Metaverse | Oracle |
    Infrastructure | Education | Stablecoin | Identity | Validator | Community | Solutions |
    DeFi | Marketplace | Bridge | DEX | Other

  /** The name of a `Web3` member. */
  function Web3Name(m: Web3): string {
    match m
    case Blockchain => "Blockchain"
    case dApp => "dApp"
    case Token => "Token"
    case NFT => "NFT"
    case DAO => "DAO"
    case Wallet => "Wallet"
    case Exchange => "Exchange"
    case Metaverse => "Metaverse"
    case Oracle => "Oracle"
    case Infrastructure => "Infrastructure"
    case Education => "Education"
    case Stablecoin => "Stablecoin"
    case Identity => "Identity"
    case Validator => "Validator"
    case Community => "Community"
    case Solutions => "Solutions"
    case DeFi => "DeFi"
    case Marketplace => "Marketplace"
    case Bridge => "Bridge"
    case DEX => "DEX"
    case Other => "Other"
  }

  /** Every member of `Web3`, in declaration order. */
  const Web3Members: seq<Web3> := [
    Web3.Blockchain, Web3.dApp, Web3.Token, Web3.NFT, Web3.DAO, Web3.Wallet, Web3.Exchange,
    Web3.Metaverse, Web3.Oracle, Web3.Infrastructure, Web3.Education, Web3.Stablecoin,
    Web3.Identity, Web3.Validator, Web3.Community, Web3.Solutions, Web3.DeFi,
    Web3.Marketplace, Web3.Bridge, Web3.DEX, Web3.Other
  ]

  /** `Web3[s]`: the member named `s`, if there is one. */
  function Web3Named(s: string): (r: Option<Web3>)
    ensures r.Some? ==> Web3Name(r.value) == s
    ensures r.None? ==> forall i :: 0 <= i < |Web3Members| ==> Web3Name(Web3Members[i]) != s
  {
    Lookup(s, Web3Members, Web3Name)
  }

  /** The members of `ImpactArea`. */
  datatype ImpactArea =
    SocialJustice | Carbon | Energy | Nature | Investing | Industry | Social_Justice |
    Social | Infrastructure | FoodAg | Politicsactivism | Innovation | Education | Health |
    Other

  /** The name of a `ImpactArea` member. */
  function ImpactAreaName(m: ImpactArea): string {
    match m
    case SocialJustice => "SocialJustice"
    case Carbon => "Carbon"
    case Energy => "Energy"
    case Nature => "Nature"
    case Investing => "Investing"
    case Industry => "Industry"
    case Social_Justice => "Social_Justice"
    case Social => "Social"
    case Infrastructure => "Infrastructure"
    case FoodAg => "FoodAg"
    case Politicsactivism => "Politicsactivism"
    case Innovation => "Innovation"
    case Education => "Education"
    case Health => "Health"
    case Other => "Other"
  }

  /** Every member of `ImpactArea`, in declaration order. */
  const ImpactAreaMembers: seq<ImpactArea> := [
    ImpactArea.SocialJustice, ImpactArea.Carbon, ImpactArea.Energy, ImpactArea.Nature,
    ImpactArea.Investing, ImpactArea.Industry, ImpactArea.Social_Justice, ImpactArea.Social,
    ImpactArea.Infrastructure, ImpactArea.FoodAg, ImpactArea.Politicsactivism,
    ImpactArea.Innovation, ImpactArea.Education, ImpactArea.Health, ImpactArea.Other
  ]

  /** `ImpactArea[s]`: the member named `s`, if there is one. */
  function ImpactAreaNamed(s: string): (r: Option<ImpactArea>)
    ensures r.Some? ==> ImpactAreaName(r.value) == s
    ensures r.None? ==> forall i :: 0 <= i < |ImpactAreaMembers| ==> ImpactAreaName(ImpactAreaMembers[i]) != s
  {
    Lookup(s, ImpactAreaMembers, ImpactAreaName)
  }

  /** The members of `Topic`. */
  datatype Topic =
    Gaming | Marketplace | Art | Initiative | Fundraising | Legal | Media | Charity |
    Identity | Currency | Local | Biodiversity | Water | Ocean | Land | Renewables | MRV |
    Finance | Offsetting | Accounting | Data | Commodities | Payments | VC | Mining |
    Movetoearn | Recycling | Governance | Women | Work | Space | Traceability |
    Affordability | Reforestation | DeSci | Financial_Inclusion | Investing | AI |
    Community | Consulting | Reward | inclusionequality | CircularEconomy | SupplyChain |
    Trading | Animals | Forestry | FoodForests | Agriculture | Staking | Fitness | waste |
    Medicine | Loneliness | UBI | Energy | Meteorology | Other | IoT | EcoLiving

  /** The name of a `Topic` member. */
  function TopicName(m: Topic): string {
    match m
    case Gaming => "Gaming"
    case Marketplace => "Marketplace"
    case Art => "Art"
    case Initiative => "Initiative"
    case Fundraising => "Fundraising"
    case Legal => "Legal"
    case Media => "Media"
    case Charity => "Charity"
    case Identity => "Identity"
    case Currency => "Currency"
    case Local => "Local"
    case Biodiversity => "Biodiversity"
    case Water => "Water"
    case Ocean => "Ocean"
    case Land => "Land"
    case Renewables => "Renewables"
    case MRV => "MRV"
    case Finance => "Finance"
    case Offsetting => "Offsetting"
    case Accounting => "Accounting"
    case Data => "Data"
    case Commodities => "Commodities"
    case Payments => "Payments"
    case VC => "VC"
    case Mining => "Mining"
    case Movetoearn => "Movetoearn"
    case Recycling => "Recycling"
    case Governance => "Governance"
    case Women => "Women"
    case Work => "Work"
    case Space => "Space"
    case Traceability => "Traceability"
    case Affordability => "Affordability"
    case Reforestation => "Reforestation"
    case DeSci => "DeSci"
    case Financial_Inclusion => "Financial_Inclusion"
    case Investing => "Investing"
    case AI => "AI"
    case Community => "Community"
    case Consulting => "Consulting"
    case Reward => "Reward"
    case inclusionequality => "inclusionequality"
    case CircularEconomy => "CircularEconomy"
    case SupplyChain => "SupplyChain"
    case Trading => "Trading"
    case Animals => "Animals"
    case Forestry => "Forestry"
    case FoodForests => "FoodForests"
    case Agriculture => "Agriculture"
    case Staking => "Staking"
    case Fitness => "Fitness"
    case waste => "waste"
    case Medicine => "Medicine"
    case Loneliness => "Loneliness"
    case UBI => "UBI"
    case Energy => "Energy"
    case Meteorology => "Meteorology"
    case Other => "Other"
    case IoT => "IoT"
    case EcoLiving => "EcoLiving"
  }

  /** Every member of `Topic`, in declaration order. */
  const TopicMembers: seq<Topic> := [
    Topic.Gaming, Topic.Marketplace, Topic.Art, Topic.Initiative, Topic.Fundraising,
    Topic.Legal, Topic.Media, Topic.Charity, Topic.Identity, Topic.Currency, Topic.Local,
    Topic.Biodiversity, Topic.Water, Topic.Ocean, Topic.Land, Topic.Renewables, Topic.MRV,
    Topic.Finance, Topic.Offsetting, Topic.Accounting, Topic.Data, Topic.Commodities,
    Topic.Payments, Topic.VC, Topic.Mining, Topic.Movetoearn, Topic.Recycling,
    Topic.Governance, Topic.Women, Topic.Work, Topic.Space, Topic.Traceability,
    Topic.Affordability, Topic.Reforestation, Topic.DeSci, Topic.Financial_Inclusion,
    Topic.Investing, Topic.AI, Topic.Community, Topic.Consulting, Topic.Reward,
    Topic.inclusionequality, Topic.CircularEconomy, Topic.SupplyChain, Topic.Trading,
    Topic.Animals, Topic.Forestry, Topic.FoodForests, Topic.Agriculture, Topic.Staking,
    Topic.Fitness, Topic.waste, Topic.Medicine, Topic.Loneliness, Topic.UBI, Topic.Energy,
    Topic.Meteorology, Topic.Other, Topic.IoT, Topic.EcoLiving
  ]

  /** `Topic[s]`: the member named `s`, if there is one. */
  function TopicNamed(s: string): (r: Option<Topic>)
    ensures r.Some? ==> TopicName(r.value) == s
    ensures r.None? ==> forall i :: 0 <= i < |TopicMembers| ==> TopicName(TopicMembers[i]) != s
  {
    Lookup(s, TopicMembers, TopicName)
  }
}
